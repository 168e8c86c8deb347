/**
  The transactional outbox that carries audit events from the application database to the audit database.

  A dispatcher reads the undelivered rows, then for each one appends the event in one transaction and marks the
  row delivered in another. Either may fail or be cancelled, before its commit or after it but unacknowledged, and
  the process may die between any two transactions. Rows are numbered by their position; an audit entry remembers,
  for the sake of the proofs, which row it came from.
*/
module Outbox {
  import opened Common
  import opened Redaction

  datatype Row = Row(event: Json, delivered: bool, attempts: nat, lastError: Option<string>)

  datatype Entry = Entry(rowId: nat, row: AuditRow)

  /** What a busy dispatcher does next about the first item on its list. */
  datatype Phase = Appending | Marking | Failing

  /**
    `delivered` is the running count it will return. For the proofs it also knows how many rows were delivered
    when it began, and how many marks it made without learning that they took.
   */
  datatype Dispatcher =
    | Idle
    | Busy(todo: seq<nat>, phase: Phase, delivered: nat, before: nat, unacknowledged: nat)

  /** `aborted` counts dispatcher runs that died or gave up. */
  datatype System = System(outbox: seq<Row>, audit: seq<Entry>, dispatcher: Dispatcher, aborted: nat)

  datatype Step =
    | Enqueue(event: Json)
    | Begin(limit: nat)
    | Append(acknowledged: bool)
    | AppendFails
    | Mark(acknowledged: bool)
    | MarkFails
    | NoteFailure(error: string, acknowledged: bool)
    | Die
    | Return

  function AllPending(outbox: seq<Row>): seq<nat> {
    if outbox == [] then []
    else
      var n := |outbox| - 1;
      AllPending(outbox[..n]) + if outbox[n].delivered then [] else [n]
  }

  function Take(ids: seq<nat>, limit: nat): seq<nat> {
    if |ids| <= limit then ids else ids[..limit]
  }

  function DeliveredCount(outbox: seq<Row>): nat {
    if outbox == [] then 0
    else DeliveredCount(outbox[..|outbox| - 1]) + if outbox[|outbox| - 1].delivered then 1 else 0
  }

  ghost predicate Handling(s: System, phase: Phase) {
    && s.dispatcher.Busy? && s.dispatcher.phase == phase && s.dispatcher.todo != []
    && s.dispatcher.todo[0] < |s.outbox|
  }

  ghost predicate Enabled(s: System, step: Step) {
    match step
    case Enqueue(_) => true
    case Begin(_) => s.dispatcher.Idle?
    case Append(_) => Handling(s, Appending)
    case AppendFails => Handling(s, Appending)
    case Mark(_) => Handling(s, Marking)
    case MarkFails => Handling(s, Marking)
    case NoteFailure(_, _) => Handling(s, Failing)
    case Die => s.dispatcher.Busy?
    case Return => s.dispatcher.Busy? && s.dispatcher.todo == []
  }

  function Onward(d: Dispatcher): Dispatcher
    requires d.Busy? && d.todo != []
  {
    d.(todo := d.todo[1..], phase := Appending)
  }

  function Next(s: System, step: Step): System
    requires Enabled(s, step)
  {
    var d := s.dispatcher;
    match step
    case Enqueue(event) => s.(outbox := s.outbox + [Row(event, false, 0, None)])
    case Begin(limit) =>
      s.(dispatcher := Busy(Take(AllPending(s.outbox), limit), Appending, 0, DeliveredCount(s.outbox), 0))
    case Append(acknowledged) =>
      var id := d.todo[0];
      s.(audit := s.audit + [Entry(id, Appended(s.outbox[id].event))],
         dispatcher := d.(phase := if acknowledged then Marking else Failing))
    case AppendFails => s.(dispatcher := d.(phase := Failing))
    case Mark(acknowledged) =>
      var id := d.todo[0];
      s.(outbox := s.outbox[id := s.outbox[id].(delivered := true, lastError := None)],
         dispatcher := if acknowledged then Onward(d).(delivered := d.delivered + 1)
                       else d.(phase := Failing, unacknowledged := d.unacknowledged + 1))
    case MarkFails => s.(dispatcher := d.(phase := Failing))
    case NoteFailure(error, acknowledged) =>
      var id := d.todo[0];
      var row := s.outbox[id];
      s.(outbox := s.outbox[id := row.(attempts := row.attempts + 1, lastError := Some(error))],
         dispatcher := if acknowledged then Onward(d) else Idle,
         aborted := s.aborted + if acknowledged then 0 else 1)
    case Die => s.(dispatcher := Idle, aborted := s.aborted + 1)
    case Return => s.(dispatcher := Idle)
  }

  const EMPTY := System([], [], Idle, 0)

  ghost predicate CanRun(s: System, steps: seq<Step>)
    decreases |steps|
  {
    steps != [] ==> Enabled(s, steps[0]) && CanRun(Next(s, steps[0]), steps[1..])
  }

  function After(s: System, steps: seq<Step>): System
    requires CanRun(s, steps)
    decreases |steps|
  {
    if steps == [] then s else After(Next(s, steps[0]), steps[1..])
  }

  lemma {:induction false} RunsConcatenate(s: System, steps: seq<Step>, more: seq<Step>)
    requires CanRun(s, steps) && CanRun(After(s, steps), more)
    ensures CanRun(s, steps + more) && After(s, steps + more) == After(After(s, steps), more)
    decreases |steps|
  {
    if steps == [] {
      assert steps + more == more;
    } else {
      assert (steps + more)[1..] == steps[1..] + more;
      RunsConcatenate(Next(s, steps[0]), steps[1..], more);
    }
  }

  // ----- At least once, and not too often ----------------------------------------------------------------------

  function Copies(audit: seq<Entry>, id: nat): nat {
    if audit == [] then 0
    else Copies(audit[..|audit| - 1], id) + if audit[|audit| - 1].rowId == id then 1 else 0
  }

  /** The dispatcher may have appended row `id` already and has not yet written down what became of it. */
  function InFlight(d: Dispatcher, id: nat): nat {
    if d.Busy? && d.todo != [] && d.todo[0] == id && !d.phase.Appending? then 1 else 0
  }

  function One(b: bool): nat {
    if b then 1 else 0
  }

  ghost predicate Genuine(s: System) {
    forall i :: 0 <= i < |s.audit| ==>
      s.audit[i].rowId < |s.outbox| && s.audit[i].row == Appended(s.outbox[s.audit[i].rowId].event)
  }

  ghost predicate Accounted(s: System) {
    forall id :: 0 <= id < |s.outbox| ==>
      && One(s.outbox[id].delivered) <= Copies(s.audit, id)
      && Copies(s.audit, id)
           <= s.outbox[id].attempts + One(s.outbox[id].delivered) + s.aborted + InFlight(s.dispatcher, id)
  }

  /** The list is in id order, everything still to be done is undelivered, and what was appended is there. */
  ghost predicate OnList(s: System) {
    s.dispatcher.Busy? ==>
      var d := s.dispatcher;
      && Increasing(d.todo)
      && (forall i :: 0 <= i < |d.todo| ==> d.todo[i] < |s.outbox|)
      && (forall i :: 0 <= i < |d.todo| && (i > 0 || !d.phase.Failing?) ==> !s.outbox[d.todo[i]].delivered)
      && (d.todo != [] && d.phase.Marking? ==> Copies(s.audit, d.todo[0]) >= 1)
  }

  ghost predicate Balanced(s: System) {
    s.dispatcher.Busy? ==>
      DeliveredCount(s.outbox) == s.dispatcher.before + s.dispatcher.delivered + s.dispatcher.unacknowledged
  }

  ghost predicate Valid(s: System) {
    Genuine(s) && Accounted(s) && OnList(s) && Balanced(s)
  }

  lemma {:induction false} NoCopiesOfNewRow(audit: seq<Entry>, id: nat)
    requires forall i :: 0 <= i < |audit| ==> audit[i].rowId < id
    ensures Copies(audit, id) == 0
  {
    if audit == [] {
    } else {
      NoCopiesOfNewRow(audit[..|audit| - 1], id);
    }
  }

  lemma CopiesOfAppend(audit: seq<Entry>, e: Entry, id: nat)
    ensures Copies(audit + [e], id) == Copies(audit, id) + One(e.rowId == id)
  {
    assert (audit + [e])[..|audit|] == audit;
  }

  ghost predicate Increasing(ids: seq<nat>) {
    forall i, j :: 0 <= i < j < |ids| ==> ids[i] < ids[j]
  }

  ghost predicate Undelivered(outbox: seq<Row>, ids: seq<nat>) {
    forall i :: 0 <= i < |ids| ==> ids[i] < |outbox| && !outbox[ids[i]].delivered
  }

  lemma PendingStep(outbox: seq<Row>)
    requires outbox != []
    ensures var n := |outbox| - 1;
            AllPending(outbox) == if outbox[n].delivered then AllPending(outbox[..n]) else AllPending(outbox[..n]) + [n]
  {
    assert AllPending(outbox[..|outbox| - 1]) + [] == AllPending(outbox[..|outbox| - 1]);
  }

  lemma {:induction false} PendingAreUndelivered(outbox: seq<Row>)
    ensures Increasing(AllPending(outbox)) && Undelivered(outbox, AllPending(outbox))
  {
    if outbox != [] {
      var n := |outbox| - 1;
      var older := AllPending(outbox[..n]);
      PendingAreUndelivered(outbox[..n]);
      PendingStep(outbox);
      forall i | 0 <= i < |older|
        ensures older[i] < n && !outbox[older[i]].delivered
      {
        assert outbox[..n][older[i]] == outbox[older[i]];
      }
    }
  }

  lemma {:induction false} DeliveredCountOfUpdate(outbox: seq<Row>, id: nat, row: Row)
    requires id < |outbox|
    ensures DeliveredCount(outbox[id := row])
         == DeliveredCount(outbox) - One(outbox[id].delivered) + One(row.delivered)
  {
    var n := |outbox| - 1;
    if id < n {
      DeliveredCountOfUpdate(outbox[..n], id, row);
      assert outbox[id := row][..n] == outbox[..n][id := row];
    } else {
      assert outbox[id := row][..n] == outbox[..n];
    }
  }

  lemma {:induction false} EnqueueKeepsValid(s: System, event: Json)
    requires Valid(s)
    ensures Valid(Next(s, Enqueue(event)))
  {
    hide Appended;
    NoCopiesOfNewRow(s.audit, |s.outbox|);
    var outbox := s.outbox + [Row(event, false, 0, None)];
    assert outbox[..|s.outbox|] == s.outbox;
  }

  lemma {:induction false} BeginKeepsValid(s: System, limit: nat)
    requires Valid(s) && s.dispatcher.Idle?
    ensures Valid(Next(s, Begin(limit)))
  {
    hide Appended, Copies, DeliveredCount;
    PendingAreUndelivered(s.outbox);
  }

  lemma {:induction false} AppendKeepsValid(s: System, acknowledged: bool)
    requires Valid(s) && Enabled(s, Append(acknowledged))
    ensures Valid(Next(s, Append(acknowledged)))
  {
    hide Appended, Copies, DeliveredCount;
    var e := Entry(s.dispatcher.todo[0], Appended(s.outbox[s.dispatcher.todo[0]].event));
    forall id: nat
      ensures Copies(s.audit + [e], id) == Copies(s.audit, id) + One(e.rowId == id)
    {
      CopiesOfAppend(s.audit, e, id);
    }
  }

  lemma {:induction false} MarkKeepsValid(s: System, acknowledged: bool)
    requires Valid(s) && Enabled(s, Mark(acknowledged))
    ensures Valid(Next(s, Mark(acknowledged)))
  {
    hide Appended, Copies, DeliveredCount;
    var id := s.dispatcher.todo[0];
    DeliveredCountOfUpdate(s.outbox, id, s.outbox[id].(delivered := true, lastError := None));
  }

  lemma {:induction false} NoteFailureKeepsValid(s: System, error: string, acknowledged: bool)
    requires Valid(s) && Enabled(s, NoteFailure(error, acknowledged))
    ensures Valid(Next(s, NoteFailure(error, acknowledged)))
  {
    hide Appended, Copies, DeliveredCount;
    var id := s.dispatcher.todo[0];
    var row := s.outbox[id];
    DeliveredCountOfUpdate(s.outbox, id, row.(attempts := row.attempts + 1, lastError := Some(error)));
  }

  lemma {:induction false} FailedStepKeepsValid(s: System, step: Step)
    requires Valid(s) && Enabled(s, step)
    requires step.AppendFails? || step.MarkFails? || step.Die? || step.Return?
    ensures Valid(Next(s, step))
  {
    hide Appended, Copies, DeliveredCount;
  }

  lemma {:induction false} StepKeepsValid(s: System, step: Step)
    requires Valid(s) && Enabled(s, step)
    ensures Valid(Next(s, step))
  {
    hide Valid;
    match step {
      case Enqueue(event) => EnqueueKeepsValid(s, event);
      case Begin(limit) => BeginKeepsValid(s, limit);
      case Append(acknowledged) => AppendKeepsValid(s, acknowledged);
      case Mark(acknowledged) => MarkKeepsValid(s, acknowledged);
      case NoteFailure(error, acknowledged) => NoteFailureKeepsValid(s, error, acknowledged);
      case _ => FailedStepKeepsValid(s, step);
    }
  }

  lemma {:induction false} RunKeepsValid(s: System, steps: seq<Step>)
    requires Valid(s) && CanRun(s, steps)
    ensures Valid(After(s, steps))
    decreases |steps|
  {
    hide Valid, Enabled, Next;
    if steps == [] {
    } else {
      StepKeepsValid(s, steps[0]);
      RunKeepsValid(Next(s, steps[0]), steps[1..]);
    }
  }

  /**
    In every run with one dispatcher: a row marked delivered is in the audit log at least once; every audit entry
    is what its row's event leaves behind; and a row is in the log at most as often as it was noted as failed,
    plus once if delivered, once per aborted dispatch, and once if the dispatcher has it in hand.
   */
  lemma {:induction false} DeliveryIsAtLeastOnce(steps: seq<Step>)
    requires CanRun(EMPTY, steps)
    ensures var s := After(EMPTY, steps);
            && (forall i :: 0 <= i < |s.audit| ==>
                  s.audit[i].rowId < |s.outbox| && s.audit[i].row == Appended(s.outbox[s.audit[i].rowId].event))
            && (forall id :: 0 <= id < |s.outbox| ==>
                  && (s.outbox[id].delivered ==> Copies(s.audit, id) >= 1)
                  && Copies(s.audit, id)
                       <= s.outbox[id].attempts + One(s.outbox[id].delivered) + s.aborted + InFlight(s.dispatcher, id))
  {
    RunKeepsValid(EMPTY, steps);
  }

  // ----- What a row remembers ----------------------------------------------------------------------------------------

  /** The row the dispatcher has in hand just before step `i` of a run. */
  ghost function InHand(steps: seq<Step>, i: nat): Option<nat>
    requires CanRun(EMPTY, steps) && i < |steps|
  {
    PrefixRuns(EMPTY, steps, i);
    var d := After(EMPTY, steps[..i]).dispatcher;
    if d.Busy? && d.todo != [] then Some(d.todo[0]) else None
  }

  /** Step `i` of the run notes a failure of row `id`. */
  ghost predicate Notes(steps: seq<Step>, i: nat, id: nat)
    requires CanRun(EMPTY, steps) && i < |steps|
  {
    steps[i].NoteFailure? && InHand(steps, i) == Some(id)
  }

  /** Step `i` of the run marks row `id` delivered. */
  ghost predicate Marks(steps: seq<Step>, i: nat, id: nat)
    requires CanRun(EMPTY, steps) && i < |steps|
  {
    steps[i].Mark? && InHand(steps, i) == Some(id)
  }

  ghost function NotesBefore(steps: seq<Step>, k: nat, id: nat): set<int>
    requires CanRun(EMPTY, steps) && k <= |steps|
  {
    set i | 0 <= i < k && Notes(steps, i, id)
  }

  /** The error kept for row `id` after `k` steps is that of its latest note, unless it was marked since. */
  ghost predicate KeepsLatest(steps: seq<Step>, k: nat, id: nat, error: Option<string>)
    requires CanRun(EMPTY, steps) && k <= |steps|
  {
    match error
    case None => forall i :: 0 <= i < k && Notes(steps, i, id) ==> exists j :: i < j < k && Marks(steps, j, id)
    case Some(e) =>
      exists i :: 0 <= i < k && Notes(steps, i, id) && steps[i].error == e
                  && forall j :: i < j < k ==> !Notes(steps, j, id) && !Marks(steps, j, id)
  }

  ghost predicate Remembers(steps: seq<Step>, k: nat, id: nat, outbox: seq<Row>)
    requires CanRun(EMPTY, steps) && k <= |steps|
  {
    if id < |outbox| then
      && outbox[id].attempts == |NotesBefore(steps, k, id)|
      && (outbox[id].delivered <==> exists i :: 0 <= i < k && Marks(steps, i, id))
      && KeepsLatest(steps, k, id, outbox[id].lastError)
    else forall i :: 0 <= i < k ==> !Notes(steps, i, id) && !Marks(steps, i, id)
  }

  /** What a step that is the run's `k`th makes of row `id`. */
  ghost predicate RowMoves(steps: seq<Step>, k: nat, id: nat, before: seq<Row>, next: seq<Row>)
    requires CanRun(EMPTY, steps) && k < |steps|
  {
    && |before| <= |next|
    && (Notes(steps, k, id) || Marks(steps, k, id) ==> id < |before|)
    && (id < |before| ==>
          next[id] == if Notes(steps, k, id)
            then before[id].(attempts := before[id].attempts + 1, lastError := Some(steps[k].error))
            else if Marks(steps, k, id) then before[id].(delivered := true, lastError := None)
            else before[id])
    && (|before| <= id < |next| ==>
          next[id].attempts == 0 && !next[id].delivered && next[id].lastError == None)
  }

  lemma StepMovesRow(steps: seq<Step>, k: nat, id: nat)
    requires CanRun(EMPTY, steps) && k < |steps|
    ensures CanRun(EMPTY, steps[..k]) && Enabled(After(EMPTY, steps[..k]), steps[k])
    ensures var s := After(EMPTY, steps[..k]);
            RowMoves(steps, k, id, s.outbox, Next(s, steps[k]).outbox)
  {
    hide Appended, AllPending, DeliveredCount, CanRun, After;
    PrefixRuns(EMPTY, steps, k);
  }

  lemma ErrorIsRemembered(steps: seq<Step>, k: nat, id: nat, error: Option<string>, next: Option<string>)
    requires CanRun(EMPTY, steps) && k < |steps| && KeepsLatest(steps, k, id, error)
    requires next == if Notes(steps, k, id) then Some(steps[k].error) else if Marks(steps, k, id) then None else error
    ensures KeepsLatest(steps, k + 1, id, next)
  {
    hide CanRun, Marks, InHand;
    if Notes(steps, k, id) {
    } else if Marks(steps, k, id) {
      OneKindOnly(steps, k, id);
    } else if error.Some? {
      var i :| 0 <= i < k && Notes(steps, i, id) && steps[i].error == error.value
               && forall j :: i < j < k ==> !Notes(steps, j, id) && !Marks(steps, j, id);
      assert forall j :: i < j < k + 1 ==> !Notes(steps, j, id) && !Marks(steps, j, id);
    }
  }

  lemma OneKindOnly(steps: seq<Step>, k: nat, id: nat)
    requires CanRun(EMPTY, steps) && k < |steps|
    ensures !(Notes(steps, k, id) && Marks(steps, k, id))
  {
  }

  lemma AttemptsAreRemembered(steps: seq<Step>, k: nat, id: nat)
    requires CanRun(EMPTY, steps) && k < |steps|
    ensures |NotesBefore(steps, k + 1, id)| == |NotesBefore(steps, k, id)| + if Notes(steps, k, id) then 1 else 0
  {
    hide CanRun, Notes;
    var noted := NotesBefore(steps, k, id);
    assert NotesBefore(steps, k + 1, id) == if Notes(steps, k, id) then noted + {k} else noted;
  }

  lemma NothingNoted(steps: seq<Step>, k: nat, id: nat)
    requires CanRun(EMPTY, steps) && k <= |steps|
    requires forall i :: 0 <= i < k ==> !Notes(steps, i, id) && !Marks(steps, i, id)
    ensures NotesBefore(steps, k, id) == {} && KeepsLatest(steps, k, id, None)
  {
    hide CanRun, Notes, Marks;
  }

  lemma {:induction false} StepIsRemembered(steps: seq<Step>, k: nat, id: nat, before: seq<Row>, next: seq<Row>)
    requires CanRun(EMPTY, steps) && k < |steps|
    requires Remembers(steps, k, id, before) && RowMoves(steps, k, id, before, next)
    ensures Remembers(steps, k + 1, id, next)
  {
    hide CanRun, Notes, Marks, KeepsLatest, NotesBefore;
    OneKindOnly(steps, k, id);
    if id < |before| {
      ErrorIsRemembered(steps, k, id, before[id].lastError, next[id].lastError);
      AttemptsAreRemembered(steps, k, id);
    } else if id < |next| {
      NothingNoted(steps, k + 1, id);
    }
  }

  lemma {:induction false} PrefixIsRemembered(steps: seq<Step>, k: nat, id: nat)
    requires CanRun(EMPTY, steps) && k <= |steps|
    ensures CanRun(EMPTY, steps[..k]) && Remembers(steps, k, id, After(EMPTY, steps[..k]).outbox)
    decreases k
  {
    hide CanRun, After, Next, Enabled, Remembers, RowMoves;
    if k == 0 {
      assert steps[..0] == [];
      RunOfNothing(EMPTY);
      NothingToRemember(steps, id);
    } else {
      PrefixIsRemembered(steps, k - 1, id);
      StepMovesRow(steps, k - 1, id);
      if k == |steps| {
        assert steps[..k] == steps;
        PrefixRuns(EMPTY, steps, k - 1);
      } else {
        PrefixRuns(EMPTY, steps, k);
        PrefixRuns(EMPTY, steps[..k], k - 1);
        assert steps[..k][..k - 1] == steps[..k - 1];
      }
      var s := After(EMPTY, steps[..k - 1]);
      StepIsRemembered(steps, k - 1, id, s.outbox, Next(s, steps[k - 1]).outbox);
    }
  }

  lemma NothingToRemember(steps: seq<Step>, id: nat)
    requires CanRun(EMPTY, steps)
    ensures Remembers(steps, 0, id, [])
  {
  }

  /**
    In every run: the attempts of a row are the notes of a failure made on it, it counts as delivered exactly if it
    was marked, and its last error is that of the latest note, unless the row was marked since.
   */
  lemma {:induction false} RowsTellTheirHistory(steps: seq<Step>, id: nat)
    requires CanRun(EMPTY, steps) && id < |After(EMPTY, steps).outbox|
    ensures var row := After(EMPTY, steps).outbox[id];
            && row.attempts == |set i | 0 <= i < |steps| && Notes(steps, i, id)|
            && (row.delivered <==> exists i :: 0 <= i < |steps| && Marks(steps, i, id))
            && (row.lastError == None ==>
                  forall i :: 0 <= i < |steps| && Notes(steps, i, id) ==>
                    exists j :: i < j < |steps| && Marks(steps, j, id))
            && (row.lastError != None ==>
                  exists i :: 0 <= i < |steps| && Notes(steps, i, id) && Some(steps[i].error) == row.lastError
                    && forall j :: i < j < |steps| ==> !Notes(steps, j, id) && !Marks(steps, j, id))
  {
    PrefixIsRemembered(steps, |steps|, id);
    assert steps[..|steps|] == steps;
    hide After, CanRun, Notes, Marks;
  }

  /** The events handed in by a run, in order. */
  function Enqueued(steps: seq<Step>): seq<Json> {
    if steps == [] then []
    else (if steps[0].Enqueue? then [steps[0].event] else []) + Enqueued(steps[1..])
  }

  function Events(outbox: seq<Row>): seq<Json> {
    seq(|outbox|, i requires 0 <= i < |outbox| => outbox[i].event)
  }

  /** No row is lost, invented or altered: the outbox holds the events handed in, in their order. */
  lemma {:induction false} EventsStay(s: System, steps: seq<Step>)
    requires CanRun(s, steps)
    ensures Events(After(s, steps).outbox) == Events(s.outbox) + Enqueued(steps)
    decreases |steps|
  {
    hide Next, Enabled, Events;
    if steps == [] {
    } else {
      var one := if steps[0].Enqueue? then [steps[0].event] else [];
      StepKeepsEvents(s, steps[0]);
      EventsStay(Next(s, steps[0]), steps[1..]);
      assert Events(s.outbox) + one + Enqueued(steps[1..]) == Events(s.outbox) + (one + Enqueued(steps[1..]));
      assert After(s, steps) == After(Next(s, steps[0]), steps[1..]);
      assert Enqueued(steps) == one + Enqueued(steps[1..]);
      hide After, CanRun, Enqueued;
    }
  }

  lemma StepKeepsEvents(s: System, step: Step)
    requires Enabled(s, step)
    ensures Events(Next(s, step).outbox) == Events(s.outbox) + if step.Enqueue? then [step.event] else []
  {
    hide Appended, AllPending, DeliveredCount;
  }

  /** How many marks a run made whose commit nobody heard of. */
  function UnheardMarks(steps: seq<Step>): nat {
    if steps == [] then 0 else (if steps[0] == Mark(false) then 1 else 0) + UnheardMarks(steps[1..])
  }

  /** Some dispatch was under way at `s`, and none begins in `steps`: its memory is the run's own history. */
  lemma {:induction false} SameDispatch(s: System, steps: seq<Step>)
    requires CanRun(s, steps) && forall i :: 0 <= i < |steps| ==> !steps[i].Begin?
    ensures After(s, steps).dispatcher.Busy? ==>
              && s.dispatcher.Busy? && After(s, steps).dispatcher.before == s.dispatcher.before
              && After(s, steps).dispatcher.unacknowledged == s.dispatcher.unacknowledged + UnheardMarks(steps)
    decreases |steps|
  {
    if steps == [] {
    } else {
      assert !steps[0].Begin?;
      assert forall i :: 0 <= i < |steps[1..]| ==> steps[1..][i] == steps[i + 1];
      SameDispatch(Next(s, steps[0]), steps[1..]);
    }
  }

  lemma {:induction false} NoneUnheard(steps: seq<Step>)
    ensures UnheardMarks(steps) == 0 <==> Mark(false) !in steps
  {
    if steps == [] {
    } else {
      NoneUnheard(steps[1..]);
      assert steps == [steps[0]] + steps[1..];
    }
  }

  lemma {:induction false} UnheardOfAppend(steps: seq<Step>, step: Step)
    ensures UnheardMarks(steps + [step]) == UnheardMarks(steps) + if step == Mark(false) then 1 else 0
  {
    if steps == [] {
      assert ([step])[1..] == [] && steps + [step] == [step];
    } else {
      UnheardOfAppend(steps[1..], step);
      assert (steps + [step])[1..] == steps[1..] + [step];
    }
  }

  /** `steps` is one dispatch: it begins, does not begin again, and returns. */
  ghost predicate Dispatches(s: System, limit: nat, steps: seq<Step>) {
    && CanRun(s, steps) && |steps| >= 2
    && steps[0] == Begin(limit) && steps[|steps| - 1] == Return
    && forall i :: 1 <= i < |steps| ==> !steps[i].Begin?
  }

  /** What a dispatch returns: the running count just before it does. */
  ghost function CountReturned(s: System, limit: nat, steps: seq<Step>): nat
    requires Dispatches(s, limit, steps)
  {
    CountIsKnown(s, steps);
    After(s, steps[..|steps| - 1]).dispatcher.delivered
  }

  lemma {:induction false} PrefixRuns(s: System, steps: seq<Step>, i: nat)
    requires CanRun(s, steps) && i < |steps|
    ensures CanRun(s, steps[..i]) && Enabled(After(s, steps[..i]), steps[i])
    ensures i == |steps| - 1 ==> After(s, steps) == Next(After(s, steps[..i]), steps[i])
    decreases i
  {
    if i == 0 {
      assert steps[..0] == [];
      RunOfNothing(s);
      if |steps| == 1 {
        RunOfNothing(Next(s, steps[0]));
      }
    } else {
      assert steps[..i][1..] == steps[1..][..i - 1];
      PrefixRuns(Next(s, steps[0]), steps[1..], i - 1);
    }
  }

  lemma CountIsKnown(s: System, steps: seq<Step>)
    requires CanRun(s, steps) && steps != [] && steps[|steps| - 1] == Return
    ensures CanRun(s, steps[..|steps| - 1]) && After(s, steps[..|steps| - 1]).dispatcher.Busy?
    ensures After(s, steps).outbox == After(s, steps[..|steps| - 1]).outbox
  {
    PrefixRuns(s, steps, |steps| - 1);
  }

  lemma {:induction false} DispatchConserves(s: System, limit: nat, steps: seq<Step>)
    requires Valid(s) && Dispatches(s, limit, steps)
    ensures DeliveredCount(After(s, steps).outbox)
         == DeliveredCount(s.outbox) + CountReturned(s, limit, steps) + UnheardMarks(steps)
  {
    hide DeliveredCount, Appended, Accounted, Genuine;
    var n := |steps| - 1;
    var before := steps[..n];
    CountIsKnown(s, steps);
    RunKeepsValid(s, before);
    var begun := Next(s, Begin(limit));
    assert before[0] == steps[0] && After(s, before) == After(begun, before[1..]);
    SameDispatch(begun, before[1..]);
    UnheardOfAppend(before, Return);
    assert before + [Return] == steps;
  }

  /**
    In every reachable state: the rows a returning dispatch newly delivers are the count it returns plus the marks
    whose commit was not acknowledged. So the count is exact if and only if every mark that committed was heard of.
   */
  lemma {:induction false} CountIsConserved(history: seq<Step>, limit: nat, steps: seq<Step>)
    requires CanRun(EMPTY, history) && Dispatches(After(EMPTY, history), limit, steps)
    ensures var start := After(EMPTY, history);
            var newly := DeliveredCount(After(start, steps).outbox) - DeliveredCount(start.outbox);
            && newly == CountReturned(start, limit, steps) + UnheardMarks(steps)
            && (newly == CountReturned(start, limit, steps) <==> Mark(false) !in steps)
  {
    RunKeepsValid(EMPTY, history);
    DispatchConserves(After(EMPTY, history), limit, steps);
    NoneUnheard(steps);
  }

  // ----- The dispatcher itself -------------------------------------------------------------------------------------

  /** How a transaction can turn out. */
  datatype Txn = Committed | CommittedUnheard | RolledBack

  /** How a call ends: normally, with an exception that the loop catches, or with a cancellation that it does not. */
  datatype Ending = Returned | Raised | Cancelled

  lemma ExtendedRun(start: System, steps: seq<Step>, step: Step)
    requires CanRun(start, steps) && Enabled(After(start, steps), step)
    ensures CanRun(start, steps + [step]) && After(start, steps + [step]) == Next(After(start, steps), step)
  {
    var s := After(start, steps);
    RunOfNothing(Next(s, step));
    assert [step][1..] == [];
    assert CanRun(s, [step]) && After(s, [step]) == Next(s, step);
    RunsConcatenate(start, steps, [step]);
  }

  lemma DispatchBegins(s: System, limit: nat)
    requires s.dispatcher.Idle?
    ensures Enabled(s, Begin(limit))
    ensures var begun := Next(s, Begin(limit));
            && begun.outbox == s.outbox && begun.audit == s.audit && begun.aborted == s.aborted
            && begun.dispatcher
               == Busy(Take(AllPending(s.outbox), limit), Appending, 0, DeliveredCount(s.outbox), 0)
  {
  }

  lemma DispatchEnds(s: System)
    requires s.dispatcher.Busy? && s.dispatcher.todo == []
    ensures Enabled(s, Return) && Next(s, Return) == s.(dispatcher := Idle)
  {
  }

  lemma DispatchDies(s: System)
    requires s.dispatcher.Busy?
    ensures Enabled(s, Die) && Next(s, Die) == s.(dispatcher := Idle, aborted := s.aborted + 1)
  {
  }

  /** The two databases, and for the proofs the state of the protocol they are in. */
  class Databases {
    var outbox: seq<Row>
    var audit: seq<Entry>
    ghost var system: System

    /** The databases hold what the protocol says. */
    ghost predicate Hold()
      reads this
    {
      outbox == system.outbox && audit == system.audit
    }

    constructor ()
      ensures Hold() && system == EMPTY
    {
      outbox, audit, system := [], [], EMPTY;
    }

    method ListPending(limit: nat) returns (ids: seq<nat>)
      ensures ids == Take(AllPending(outbox), limit)
    {
      ids := [];
      var i := 0;
      while i < |outbox| && |ids| < limit
        invariant 0 <= i <= |outbox| && |ids| <= limit
        invariant ids == AllPending(outbox[..i])
      {
        assert outbox[..i + 1][..i] == outbox[..i];
        if !outbox[i].delivered {
          ids := ids + [i];
        }
        i := i + 1;
      }
      PendingExtends(outbox, i);
    }

    /** `append` in its own transaction; any other end is a rollback or a commit nobody heard of. */
    method AppendEvent(id: nat) returns (ending: Ending, ghost step: Step)
      requires Hold() && Handling(system, Appending) && system.dispatcher.todo[0] == id
      modifies this
      ensures Hold() && Enabled(old(system), step) && system == Next(old(system), step)
      ensures ending.Returned? ==>
                step == Append(true) && system.dispatcher == old(system).dispatcher.(phase := Marking)
      ensures !ending.Returned? ==>
                step != Append(true) && system.dispatcher == old(system).dispatcher.(phase := Failing)
      ensures system.aborted == old(system).aborted && |outbox| == |old(outbox)|
      ensures step == AppendFails || step.Append?
    {
      var txn: Txn := *;
      if !txn.RolledBack? {
        audit := audit + [Entry(id, Appended(outbox[id].event))];
      }
      var cancelled: bool := *;
      ending := if txn.Committed? then Returned else if cancelled then Cancelled else Raised;
      step := if txn.RolledBack? then AppendFails else Append(txn.Committed?);
      system := Next(system, step);
    }

    method MarkDelivered(id: nat) returns (ending: Ending, ghost step: Step)
      requires Hold() && Handling(system, Marking) && system.dispatcher.todo[0] == id
      modifies this
      ensures Hold() && Enabled(old(system), step) && system == Next(old(system), step)
      ensures ending.Returned? ==>
                var d := old(system).dispatcher;
                step == Mark(true) && system.dispatcher == Onward(d).(delivered := d.delivered + 1)
      ensures !ending.Returned? ==>
                step != Mark(true) && Handling(system, Failing)
                && system.dispatcher.todo == old(system).dispatcher.todo
                && system.dispatcher.delivered == old(system).dispatcher.delivered
      ensures system.aborted == old(system).aborted && |outbox| == |old(outbox)|
      ensures step == MarkFails || step.Mark?
    {
      var txn: Txn := *;
      if !txn.RolledBack? {
        outbox := outbox[id := outbox[id].(delivered := true, lastError := None)];
      }
      var cancelled: bool := *;
      ending := if txn.Committed? then Returned else if cancelled then Cancelled else Raised;
      step := if txn.RolledBack? then MarkFails else Mark(txn.Committed?);
      system := Next(system, step);
    }

    /** An exception here escapes the dispatcher, like a cancellation. */
    method MarkFailed(id: nat, error: string) returns (raised: bool, ghost step: Step)
      requires Hold() && Handling(system, Failing) && system.dispatcher.todo[0] == id
      modifies this
      ensures Hold() && Enabled(old(system), step) && system == Next(old(system), step)
      ensures !raised ==> step == NoteFailure(error, true) && system.dispatcher == Onward(old(system).dispatcher)
      ensures raised ==> step in {Die, NoteFailure(error, false)} && system.dispatcher == Idle
      ensures system.aborted == old(system).aborted + One(raised) && |outbox| == |old(outbox)|
    {
      var txn: Txn := *;
      if !txn.RolledBack? {
        outbox := outbox[id := outbox[id].(attempts := outbox[id].attempts + 1, lastError := Some(error))];
      }
      raised := !txn.Committed?;
      step := if txn.RolledBack? then Die else NoteFailure(error, !raised);
      system := Next(system, step);
    }

    /** The body of the `try`: append, and then mark. */
    method Deliver(id: nat) returns (ending: Ending, ghost more: seq<Step>)
      requires Hold() && Handling(system, Appending) && system.dispatcher.todo[0] == id
      modifies this
      ensures Hold() && CanRun(old(system), more) && system == After(old(system), more)
      ensures |outbox| == |old(outbox)| && forall j :: 0 <= j < |more| ==> !more[j].Begin?
      ensures var d, before := system.dispatcher, old(system).dispatcher;
              match ending
              case Returned =>
                d.Busy? && d.phase.Appending? && d.todo == before.todo[1..] && d.delivered == before.delivered + 1
              case Raised =>
                Handling(system, Failing) && d.todo == before.todo && d.delivered == before.delivered
              case Cancelled => d == Idle
      ensures system.aborted == old(system).aborted + One(ending.Cancelled?)
    {
      hide After, CanRun, Appended, Next, Enabled;
      ghost var s := system;
      RunOfNothing(s);
      ghost var step;
      ending, step := AppendEvent(id);
      ExtendedRun(s, [], step);
      more := [] + [step];
      if ending.Returned? {
        ending, step := MarkDelivered(id);
        ExtendedRun(s, more, step);
        more := more + [step];
      }
      if ending.Cancelled? {
        DispatchDies(system);
        ExtendedRun(s, more, Die);
        more, system := more + [Die], Next(system, Die);
      }
    }

    /**
      `dispatch_audit_outbox`, with each transaction free to fail or to be cancelled. Whatever happens, what it
      does to the two databases is a run of the protocol, which it returns; `None` means that an exception or the
      cancellation escaped it.
     */
    method DispatchAuditOutbox(limit: nat) returns (delivered: Option<nat>, ghost steps: seq<Step>)
      requires Hold() && system.dispatcher.Idle?
      modifies this
      ensures Hold() && CanRun(old(system), steps) && system == After(old(system), steps) && system.dispatcher.Idle?
      ensures system.aborted == old(system).aborted + if delivered.None? then 1 else 0
      ensures delivered.Some? ==>
                Dispatches(old(system), limit, steps) && CountReturned(old(system), limit, steps) == delivered.value
      ensures delivered.Some? && Valid(old(system)) ==>
                DeliveredCount(outbox) == old(DeliveredCount(outbox)) + delivered.value + UnheardMarks(steps)
    {
      hide After, CanRun, Appended, AllPending, DeliveredCount, UnheardMarks, Valid;
      ghost var s := system;
      var pending := ListPending(limit);
      PendingAreUndelivered(outbox);
      steps := [];
      RunOfNothing(s);
      ExtendedRun(s, steps, Begin(limit));
      DispatchBegins(s, limit);
      hide Next, Enabled;
      steps, system := steps + [Begin(limit)], Next(s, Begin(limit));
      var interrupted: bool := *;
      if interrupted {
        DispatchDies(system);
        ExtendedRun(s, steps, Die);
        delivered, steps, system := None, steps + [Die], Next(system, Die);
        return;
      }
      var count := 0;
      var i := 0;
      while i < |pending|
        invariant 0 <= i <= |pending| && Hold() && CanRun(s, steps) && After(s, steps) == system
        invariant |steps| >= 1 && steps[0] == Begin(limit)
        invariant forall j :: 1 <= j < |steps| ==> !steps[j].Begin?
        invariant system.aborted == s.aborted && system.dispatcher.Busy? && system.dispatcher.phase.Appending?
        invariant system.dispatcher.todo == pending[i..] && system.dispatcher.delivered == count
        invariant forall j :: 0 <= j < |pending| ==> pending[j] < |outbox|
      {
        ghost var more;
        var ending;
        ending, more := Deliver(pending[i]);
        RunsConcatenate(s, steps, more);
        steps := steps + more;
        if ending.Cancelled? {
          return None, steps;
        }
        if ending.Returned? {
          count := count + 1;
        } else {
          var error: string := *;
          ghost var step;
          var raised;
          raised, step := MarkFailed(pending[i], error);
          ExtendedRun(s, steps, step);
          steps := steps + [step];
          if raised {
            return None, steps;
          }
        }
        i := i + 1;
      }
      DispatchEnds(system);
      ExtendedRun(s, steps, Return);
      assert (steps + [Return])[..|steps|] == steps;
      steps, system := steps + [Return], Next(system, Return);
      delivered := Some(count);
      if Valid(s) {
        DispatchConserves(s, limit, steps);
      }
    }
  }

  lemma RunOfNothing(s: System)
    ensures CanRun(s, []) && After(s, []) == s
  {
  }

  // ----- Draining --------------------------------------------------------------------------------------------------

  /** Pending ids of a prefix come first in the pending ids of the whole. */
  lemma {:induction false} PendingExtends(outbox: seq<Row>, i: nat)
    requires i <= |outbox|
    ensures AllPending(outbox[..i]) <= AllPending(outbox)
    ensures i == |outbox| ==> AllPending(outbox[..i]) == AllPending(outbox)
  {
    if i == |outbox| {
      assert outbox[..i] == outbox;
    } else {
      var n := |outbox| - 1;
      PendingExtends(outbox[..n], i);
      assert outbox[..n][..i] == outbox[..i];
    }
  }

  function Entries(outbox: seq<Row>, ids: seq<nat>): seq<Entry> {
    if ids == [] then []
    else
      var id := ids[|ids| - 1];
      Entries(outbox, ids[..|ids| - 1])
      + if id < |outbox| then [Entry(id, Appended(outbox[id].event))] else []
  }

  ghost predicate SameEvents(a: seq<Row>, b: seq<Row>) {
    |a| == |b| && forall i :: 0 <= i < |a| ==> a[i].event == b[i].event
  }

  lemma {:induction false} EntriesOfSameEvents(a: seq<Row>, b: seq<Row>, ids: seq<nat>)
    requires SameEvents(a, b)
    ensures Entries(a, ids) == Entries(b, ids)
  {
    if ids == [] {
    } else {
      EntriesOfSameEvents(a, b, ids[..|ids| - 1]);
    }
  }

  lemma EntriesOfAppend(outbox: seq<Row>, ids: seq<nat>, id: nat)
    ensures Entries(outbox, ids + [id])
         == Entries(outbox, ids) + if id < |outbox| then [Entry(id, Appended(outbox[id].event))] else []
  {
    hide Appended;
    assert (ids + [id])[..|ids|] == ids;
  }

  lemma AppendsAssociate(a: seq<Entry>, b: seq<Entry>, c: seq<Entry>)
    ensures (a + b) + c == a + (b + c)
  {
  }

  lemma LastSplits(ids: seq<nat>)
    requires ids != []
    ensures ids == ids[..|ids| - 1] + [ids[|ids| - 1]]
  {
  }

  lemma {:induction false} EntriesConcatenate(outbox: seq<Row>, ids: seq<nat>, more: seq<nat>)
    ensures Entries(outbox, ids + more) == Entries(outbox, ids) + Entries(outbox, more)
  {
    if more == [] {
      assert ids + more == ids;
    } else {
      var older, id := more[..|more| - 1], more[|more| - 1];
      EntriesConcatenate(outbox, ids, older);
      EntriesOfAppend(outbox, ids + older, id);
      EntriesOfAppend(outbox, older, id);
      LastSplits(more);
      assert ids + older + [id] == ids + (older + [id]);
      var last := if id < |outbox| then [Entry(id, Appended(outbox[id].event))] else [];
      AppendsAssociate(Entries(outbox, ids), Entries(outbox, older), last);
      hide Entries, Appended;
    }
  }

  /** A list of items handled without a failure: append and mark, one after the other. */
  function Smooth(ids: seq<nat>): seq<Step> {
    if ids == [] then [] else [Append(true), Mark(true)] + Smooth(ids[1..])
  }

  /** Marking the first pending row leaves the others pending. */
  lemma {:induction false} MarkingFirst(outbox: seq<Row>, row: Row)
    requires AllPending(outbox) != [] && row.delivered && AllPending(outbox)[0] < |outbox|
    ensures AllPending(outbox[AllPending(outbox)[0] := row]) == AllPending(outbox)[1..]
  {
    var n := |outbox| - 1;
    var id := AllPending(outbox)[0];
    PendingAreUndelivered(outbox[..n]);
    if AllPending(outbox[..n]) == [] {
      assert outbox[id := row][..n] == outbox[..n];
    } else {
      assert AllPending(outbox[..n])[0] == id;
      assert outbox[id := row][..n] == outbox[..n][id := row];
      MarkingFirst(outbox[..n], row);
    }
  }

  /** The dispatcher has the first pending rows on its list, in order. */
  ghost predicate AtWork(s: System) {
    s.dispatcher.Busy? && s.dispatcher.phase.Appending? && s.dispatcher.todo <= AllPending(s.outbox)
  }

  /** Handling one item: its entry is appended, it is no longer pending, and the count goes up. */
  lemma {:induction false} SmoothItem(s: System)
    requires AtWork(s) && s.dispatcher.todo != []
    ensures Enabled(s, Append(true)) && Enabled(Next(s, Append(true)), Mark(true))
    ensures var s' := Next(Next(s, Append(true)), Mark(true));
            && AtWork(s') && s'.aborted == s.aborted && SameEvents(s'.outbox, s.outbox)
            && s'.dispatcher.todo == s.dispatcher.todo[1..]
            && s'.dispatcher.delivered == s.dispatcher.delivered + 1
            && s'.audit == s.audit + Entries(s.outbox, s.dispatcher.todo[..1])
            && AllPending(s'.outbox) == AllPending(s.outbox)[1..]
  {
    hide Appended;
    var id := s.dispatcher.todo[0];
    PendingAreUndelivered(s.outbox);
    assert AllPending(s.outbox)[0] == id;
    MarkingFirst(s.outbox, s.outbox[id].(delivered := true, lastError := None));
    assert s.dispatcher.todo[..1][..0] == [];
  }

  /** Two steps and then a run make a run. */
  lemma TwoStepsThen(s: System, first: Step, second: Step, rest: seq<Step>)
    requires Enabled(s, first) && Enabled(Next(s, first), second)
    requires CanRun(Next(Next(s, first), second), rest)
    ensures CanRun(s, [first, second] + rest)
    ensures After(s, [first, second] + rest) == After(Next(Next(s, first), second), rest)
  {
    hide Next, Enabled;
    assert ([first, second] + rest)[1..] == [second] + rest;
    assert ([second] + rest)[1..] == rest;
  }

  lemma {:induction false} SmoothItems(s: System)
    requires AtWork(s)
    ensures CanRun(s, Smooth(s.dispatcher.todo))
    ensures var s' := After(s, Smooth(s.dispatcher.todo));
            && AtWork(s') && s'.aborted == s.aborted && SameEvents(s'.outbox, s.outbox)
            && s'.dispatcher.todo == []
            && s'.dispatcher.delivered == s.dispatcher.delivered + |s.dispatcher.todo|
            && s'.audit == s.audit + Entries(s.outbox, s.dispatcher.todo)
            && AllPending(s'.outbox) == AllPending(s.outbox)[|s.dispatcher.todo|..]
    decreases |s.dispatcher.todo|
  {
    hide Next, Enabled, Entries, AllPending, CanRun, After;
    var todo := s.dispatcher.todo;
    if todo == [] {
      RunOfNothing(s);
      NoEntries(s.outbox);
      assert Smooth(todo) == [];
    } else {
      SmoothItem(s);
      var s2 := Next(Next(s, Append(true)), Mark(true));
      SmoothItems(s2);
      EntriesOfSameEvents(s2.outbox, s.outbox, todo[1..]);
      assert todo == todo[..1] + todo[1..];
      EntriesConcatenate(s.outbox, todo[..1], todo[1..]);
      TwoStepsThen(s, Append(true), Mark(true), Smooth(todo[1..]));
    }
  }

  function SmoothDispatch(s: System, limit: nat): seq<Step> {
    [Begin(limit)] + Smooth(Take(AllPending(s.outbox), limit)) + [Return]
  }

  lemma {:induction false} OneDispatch(s: System, limit: nat)
    requires s.dispatcher.Idle?
    ensures CanRun(s, SmoothDispatch(s, limit))
    ensures var s' := After(s, SmoothDispatch(s, limit));
            var pending := AllPending(s.outbox);
            var todo := Take(pending, limit);
            && s'.dispatcher.Idle? && s'.aborted == s.aborted && SameEvents(s'.outbox, s.outbox)
            && s'.audit == s.audit + Entries(s.outbox, todo)
            && AllPending(s'.outbox) == pending[|todo|..]
  {
    hide Entries;
    var begun := Next(s, Begin(limit));
    var todo := Take(AllPending(s.outbox), limit);
    SmoothItems(begun);
    var done := After(begun, Smooth(todo));
    ExtendedRun(begun, Smooth(todo), Return);
    assert SmoothDispatch(s, limit)[1..] == Smooth(todo) + [Return];
    assert SmoothDispatch(s, limit)[0] == Begin(limit);
    assert After(s, SmoothDispatch(s, limit)) == Next(done, Return);
  }

  /** `k` dispatches in a row by the script. */
  ghost function AfterDispatches(s: System, limit: nat, k: nat): System
    requires s.dispatcher.Idle?
    decreases k
  {
    if k == 0 then s
    else
      OneDispatch(s, limit);
      AfterDispatches(After(s, SmoothDispatch(s, limit)), limit, k - 1)
  }

  lemma {:induction false} ScriptDrains(s: System, limit: nat, k: nat)
    requires s.dispatcher.Idle?
    ensures var s', pending := AfterDispatches(s, limit, k), AllPending(s.outbox);
            var taken := Take(pending, k * limit);
            && s'.audit == s.audit + Entries(s.outbox, taken)
            && AllPending(s'.outbox) == pending[|taken|..]
    decreases k
  {
    hide AllPending, Entries, After, SmoothDispatch;
    var pending := AllPending(s.outbox);
    if k == 0 {
      assert Take(pending, 0) == [];
      NoEntries(s.outbox);
    } else {
      OneDispatch(s, limit);
      var s1 := After(s, SmoothDispatch(s, limit));
      ScriptDrains(s1, limit, k - 1);
      var todo := Take(pending, limit);
      var left := pending[|todo|..];
      assert k * limit == (k - 1) * limit + limit;
      TakeTwice(pending, limit, (k - 1) * limit);
      EntriesOfSameEvents(s1.outbox, s.outbox, Take(left, (k - 1) * limit));
      EntriesConcatenate(s.outbox, todo, Take(left, (k - 1) * limit));
    }
  }

  lemma NoEntries(outbox: seq<Row>)
    ensures Entries(outbox, []) == []
  {
  }

  lemma TakeTwice(ids: seq<nat>, a: nat, b: nat)
    ensures Take(ids, a + b) == Take(ids, a) + Take(ids[|Take(ids, a)|..], b)
  {
  }

  /** The least number of dispatches that can carry `n` rows. */
  lemma {:induction false} EnoughIffCeiling(n: nat, limit: nat, k: nat)
    requires limit >= 1
    ensures n <= k * limit <==> (n + limit - 1) / limit <= k
  {
    var q := (n + limit - 1) / limit;
    Product(k, q, limit);
    Product(q, k, limit);
  }

  // ----- Every undisturbed run is the script -----------------------------------------------------------------------

  /** Nothing fails, nothing dies and nothing new arrives. */
  predicate Smoothly(step: Step, limit: nat) {
    step == Begin(limit) || step == Append(true) || step == Mark(true) || step == Return
  }

  ghost predicate Undisturbed(s: System, limit: nat, steps: seq<Step>) {
    && s.dispatcher.Idle? && CanRun(s, steps) && After(s, steps).dispatcher.Idle?
    && forall i :: 0 <= i < |steps| ==> Smoothly(steps[i], limit)
  }

  function Returns(steps: seq<Step>): nat {
    if steps == [] then 0 else (if steps[0].Return? then 1 else 0) + Returns(steps[1..])
  }

  /** From the middle of a dispatch there is only one way on, up to its return. */
  lemma {:induction false} OnlyOneWay(s: System, limit: nat, steps: seq<Step>)
    requires s.dispatcher.Busy? && s.dispatcher.phase.Appending?
    requires CanRun(s, steps) && After(s, steps).dispatcher.Idle?
    requires forall i :: 0 <= i < |steps| ==> Smoothly(steps[i], limit)
    ensures Smooth(s.dispatcher.todo) + [Return] <= steps
    decreases |s.dispatcher.todo|
  {
    hide Appended;
    var todo := s.dispatcher.todo;
    assert steps != [];
    assert Smoothly(steps[0], limit);
    if todo == [] {
      assert steps[0] == Return;
    } else {
      assert steps[0] == Append(true);
      var s1 := Next(s, steps[0]);
      assert steps[1..] != [];
      assert Smoothly(steps[1], limit) && steps[1..][0] == steps[1];
      assert steps[1] == Mark(true);
      assert steps[1..][1..] == steps[2..];
      OnlyOneWay(Next(s1, steps[1]), limit, steps[2..]);
      assert Smooth(todo) + [Return] == [Append(true), Mark(true)] + (Smooth(todo[1..]) + [Return]);
      assert steps == [steps[0], steps[1]] + steps[2..];
    }
  }

  lemma {:induction false} RunSplits(s: System, steps: seq<Step>, more: seq<Step>)
    requires CanRun(s, steps + more)
    ensures CanRun(s, steps) && CanRun(After(s, steps), more)
    ensures After(s, steps + more) == After(After(s, steps), more)
    decreases |steps|
  {
    hide Enabled, Next;
    if steps == [] {
      assert steps + more == more;
    } else {
      assert (steps + more)[1..] == steps[1..] + more;
      RunSplits(Next(s, steps[0]), steps[1..], more);
    }
  }

  lemma {:induction false} ReturnsOfSmooth(ids: seq<nat>, rest: seq<Step>)
    ensures Returns(Smooth(ids) + [Return] + rest) == 1 + Returns(rest)
  {
    var all := Smooth(ids) + [Return] + rest;
    if ids == [] {
      assert all == [Return] + rest && all[1..] == rest;
    } else {
      ReturnsOfSmooth(ids[1..], rest);
      assert all[1..] == [Mark(true)] + (Smooth(ids[1..]) + [Return] + rest);
      assert all[1..][1..] == Smooth(ids[1..]) + [Return] + rest;
    }
  }

  /** An undisturbed run that is not over begins with a whole dispatch, by the script. */
  lemma {:induction false} DispatchComesFirst(s: System, limit: nat, steps: seq<Step>) returns (rest: seq<Step>)
    requires Undisturbed(s, limit, steps) && steps != []
    ensures steps == SmoothDispatch(s, limit) + rest && Returns(steps) == 1 + Returns(rest)
    ensures CanRun(s, SmoothDispatch(s, limit)) && Undisturbed(After(s, SmoothDispatch(s, limit)), limit, rest)
    ensures After(s, steps) == After(After(s, SmoothDispatch(s, limit)), rest)
  {
    hide Appended, AllPending, DeliveredCount;
    assert Smoothly(steps[0], limit) && steps[0] == Begin(limit);
    var begun := Next(s, Begin(limit));
    var todo := Take(AllPending(s.outbox), limit);
    OnlyOneWay(begun, limit, steps[1..]);
    hide Next, Enabled, Smooth, Returns, CanRun, After;
    var script := Smooth(todo) + [Return];
    rest := steps[1..][|script|..];
    assert steps[1..] == script + rest;
    assert steps == SmoothDispatch(s, limit) + rest;
    FirstStep(steps, rest, todo);
    OneDispatch(s, limit);
    RunSplits(s, SmoothDispatch(s, limit), rest);
    hide SmoothDispatch;
    SmoothParts(SmoothDispatch(s, limit), rest, limit);
  }

  lemma SmoothParts(script: seq<Step>, rest: seq<Step>, limit: nat)
    ensures (forall i :: 0 <= i < |script + rest| ==> Smoothly((script + rest)[i], limit))
       <==> (forall i :: 0 <= i < |script| ==> Smoothly(script[i], limit))
            && (forall i :: 0 <= i < |rest| ==> Smoothly(rest[i], limit))
  {
    hide Smoothly;
    assert forall i :: 0 <= i < |rest| ==> (script + rest)[|script| + i] == rest[i];
    assert forall i :: 0 <= i < |script| ==> (script + rest)[i] == script[i];
  }

  lemma FirstStep(steps: seq<Step>, rest: seq<Step>, todo: seq<nat>)
    requires steps != [] && steps[0].Begin? && steps[1..] == Smooth(todo) + [Return] + rest
    ensures Returns(steps) == 1 + Returns(rest)
  {
    ReturnsOfSmooth(todo, rest);
  }

  lemma {:induction false} UndisturbedIsScript(s: System, limit: nat, steps: seq<Step>)
    requires Undisturbed(s, limit, steps)
    ensures After(s, steps) == AfterDispatches(s, limit, Returns(steps))
    decreases |steps|
  {
    hide SmoothDispatch, CanRun;
    if steps == [] {
    } else {
      var rest := DispatchComesFirst(s, limit, steps);
      ScriptIsNotEmpty(s, limit);
      hide After;
      OneDispatch(s, limit);
      UndisturbedIsScript(After(s, SmoothDispatch(s, limit)), limit, rest);
    }
  }

  lemma ScriptIsNotEmpty(s: System, limit: nat)
    ensures |SmoothDispatch(s, limit)| > 0
  {
  }

  /** There is such a run with any number of dispatches. */
  lemma {:induction false} UndisturbedRunExists(s: System, limit: nat, k: nat) returns (steps: seq<Step>)
    requires s.dispatcher.Idle?
    ensures Undisturbed(s, limit, steps) && Returns(steps) == k
    decreases k
  {
    if k == 0 {
      steps := [];
      RunOfNothing(s);
    } else {
      OneDispatch(s, limit);
      var script := SmoothDispatch(s, limit);
      var todo := Take(AllPending(s.outbox), limit);
      var rest := UndisturbedRunExists(After(s, script), limit, k - 1);
      RunsConcatenate(s, script, rest);
      steps := script + rest;
      ScriptComesFirst(s, limit, rest);
      hide Returns, CanRun, After, SmoothDispatch;
      SmoothParts(script, rest, limit);
    }
  }

  lemma ScriptComesFirst(s: System, limit: nat, rest: seq<Step>)
    ensures Returns(SmoothDispatch(s, limit) + rest) == 1 + Returns(rest)
    ensures var script := SmoothDispatch(s, limit); forall i :: 0 <= i < |script| ==> Smoothly(script[i], limit)
  {
    hide Smooth, Returns;
    var todo := Take(AllPending(s.outbox), limit);
    var steps := SmoothDispatch(s, limit) + rest;
    assert steps[1..] == Smooth(todo) + [Return] + rest;
    FirstStep(steps, rest, todo);
    SmoothIsSmooth(todo, limit);
  }

  lemma {:induction false} SmoothIsSmooth(ids: seq<nat>, limit: nat)
    ensures forall i :: 0 <= i < |Smooth(ids)| ==> Smoothly(Smooth(ids)[i], limit)
  {
    if ids == [] {
    } else {
      SmoothIsSmooth(ids[1..], limit);
    }
  }

  /**
    In every run in which nothing fails and nothing is enqueued, `k` dispatches append the events of the first
    k * limit pending rows, each once and in id order, and leave the rest pending.
   */
  lemma {:induction false} DispatchesDrain(s: System, limit: nat, steps: seq<Step>)
    requires Undisturbed(s, limit, steps)
    ensures var s', pending := After(s, steps), AllPending(s.outbox);
            var taken := Take(pending, Returns(steps) * limit);
            && s'.audit == s.audit + Entries(s.outbox, taken)
            && AllPending(s'.outbox) == pending[|taken|..]
  {
    UndisturbedIsScript(s, limit, steps);
    ScriptDrains(s, limit, Returns(steps));
  }

  /** The pending ids are those of the undelivered rows, each once, in id order. */
  lemma {:induction false} PendingExactly(outbox: seq<Row>)
    ensures forall i, j :: 0 <= i < j < |AllPending(outbox)| ==> AllPending(outbox)[i] < AllPending(outbox)[j]
    ensures forall id: nat :: id in AllPending(outbox) <==> id < |outbox| && !outbox[id].delivered
  {
    PendingAreUndelivered(outbox);
    if outbox == [] {
    } else {
      var n := |outbox| - 1;
      var older := AllPending(outbox[..n]);
      PendingExactly(outbox[..n]);
      assert AllPending(outbox) == older + if outbox[n].delivered then [] else [n];
      hide AllPending;
      forall id: nat
        ensures id in AllPending(outbox) <==> id < |outbox| && !outbox[id].delivered
      {
        assert id in older <==> id < n && !outbox[id].delivered;
      }
    }
  }

  lemma EmptyIffDelivered(outbox: seq<Row>)
    ensures AllPending(outbox) == [] <==> forall id :: 0 <= id < |outbox| ==> outbox[id].delivered
  {
    hide AllPending;
    PendingExactly(outbox);
    if AllPending(outbox) != [] {
      assert AllPending(outbox)[0] in AllPending(outbox);
    }
  }

  /**
    In every run in which nothing fails and nothing is enqueued, an outbox of `n` pending rows is delivered after
    exactly n / limit dispatches, rounded up, and not before; and then the audit log has gained their events, each
    once, in id order.
   */
  lemma {:induction false} OutboxDrains(s: System, limit: nat, steps: seq<Step>)
    requires Undisturbed(s, limit, steps) && limit >= 1
    ensures var s', pending := After(s, steps), AllPending(s.outbox);
            var drained := forall id :: 0 <= id < |s'.outbox| ==> s'.outbox[id].delivered;
            && (drained <==> (|pending| + limit - 1) / limit <= Returns(steps))
            && (drained ==> s'.audit == s.audit + Entries(s.outbox, pending))
  {
    hide AllPending, Entries, Returns, CanRun, After;
    DispatchesDrain(s, limit, steps);
    EmptyIffDelivered(After(s, steps).outbox);
    EnoughIffCeiling(|AllPending(s.outbox)|, limit, Returns(steps));
  }
}
