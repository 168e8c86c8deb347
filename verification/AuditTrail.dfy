/**
  What the delivered audit log says about the mailboxes. The outbox, replayed in order, tells exactly which ones
  exist; the audit log holds its rows after redaction, possibly more than once, and in the order of delivery.
*/
module AuditTrail {
  import opened Common
  import opened Redaction
  import O = Outbox
  import M = Mailboxes
  import R = MailboxRuns
  import C = Crypto

  /** What a record says about one mailbox. */
  datatype Word = Adds | Removes | Nothing

  function WordOfAction(action: M.Action): Word {
    match action
    case AccountCreate => Adds
    case VerifyCompleted => Adds
    case OauthCompleted => Adds
    case AccountDelete => Removes
    case _ => Nothing
  }

  /** The same, read off the action column of an audit row. */
  function WordOfColumn(action: Json): Word {
    if action in [Str("account.create"), Str("mailbox.app_password_verify_completed"), Str("mailbox.oauth_completed")]
    then Adds
    else if action == Str("account.delete") then Removes
    else Nothing
  }

  /** The name under which an action is enqueued; an API key is rotated with its old key or without. */
  predicate Names(name: string, action: M.Action) {
    match action
    case AccountCreate => name == "account.create"
    case VerifySent => name == "mailbox.app_password_verify_sent"
    case VerifyCompleted => name == "mailbox.app_password_verify_completed"
    case OauthCompleted => name == "mailbox.oauth_completed"
    case TokenRefreshed => name == "mailbox.oauth_token_refreshed"
    case NameUpdated => name == "mailbox.name_updated"
    case CredentialsUpdate => name == "credentials.update"
    case KeyRotated => name == "apikey.rotate" || name == "apikey.rotate.forced"
    case AccountDelete => name == "account.delete"
    case MarkSeen => name == "message.mark_seen"
  }

  lemma NamesTell(name: string, action: M.Action)
    requires Names(name, action)
    ensures WordOfColumn(Str(name)) == WordOfAction(action)
  {
    assert "account.create"[8] != "account.delete"[8];
    assert |"account.create"| == 14 && |"mailbox.app_password_verify_completed"| == 37;
    assert |"mailbox.oauth_completed"| == 23;
  }

  /** Event `e` is the one the service enqueues for record `r`, whatever its context. */
  predicate EventFor(e: AuditEvent, r: M.Record) {
    Names(e.action, r.action) && e.targetAccountId == r.target && (e.extra.Obj? || e.extra.Null?)
  }

  /** Replaying delivered rows. */
  function LiveRows(rows: seq<AuditRow>): set<int> {
    if rows == [] then {}
    else
      var before, last := LiveRows(rows[..|rows| - 1]), rows[|rows| - 1];
      if !last.targetAccountId.Num? then before
      else
        match WordOfColumn(last.action)
        case Adds => before + {last.targetAccountId.n}
        case Removes => before - {last.targetAccountId.n}
        case Nothing => before
  }

  /** The outbox holds the events of the records, row by row. */
  ghost predicate Carries(outbox: seq<O.Row>, events: seq<AuditEvent>, records: seq<M.Record>) {
    && |outbox| == |events| == |records|
    && forall i :: 0 <= i < |outbox| ==> EventFor(events[i], records[i]) && outbox[i].event == ToRecord(events[i])
  }

  /** Every audit entry is what its row's event leaves behind. */
  ghost predicate Genuine(audit: seq<O.Entry>, outbox: seq<O.Row>) {
    forall i :: 0 <= i < |audit| ==>
      audit[i].rowId < |outbox| && audit[i].row == Appended(outbox[audit[i].rowId].event)
  }

  function Rows(audit: seq<O.Entry>): seq<AuditRow> {
    seq(|audit|, i requires 0 <= i < |audit| => audit[i].row)
  }

  function RowIds(audit: seq<O.Entry>): seq<nat> {
    seq(|audit|, i requires 0 <= i < |audit| => audit[i].rowId)
  }

  /** The records in the order, and as often as, their rows were delivered. */
  function Picked(records: seq<M.Record>, ids: seq<nat>): seq<M.Record>
    requires forall i :: 0 <= i < |ids| ==> ids[i] < |records|
  {
    seq(|ids|, i requires 0 <= i < |ids| => records[ids[i]])
  }

  /** Redaction takes nothing from a row that the replay needs. */
  lemma {:induction false} RedactionKeepsTheWord(e: AuditEvent, r: M.Record)
    requires EventFor(e, r)
    ensures var row := Appended(ToRecord(e));
            WordOfColumn(row.action) == WordOfAction(r.action) && row.targetAccountId == NumberOrNull(r.target)
  {
    hide Appended, ToRecord, WordOfColumn, WordOfAction;
    DeliveredRow(e);
    NamesTell(e.action, r.action);
  }

  /** Replaying the audit log is replaying the records in the order of delivery. */
  lemma {:induction false} RowsReplayRecords(
    audit: seq<O.Entry>, outbox: seq<O.Row>, events: seq<AuditEvent>, records: seq<M.Record>)
    requires Carries(outbox, events, records) && Genuine(audit, outbox)
    ensures LiveRows(Rows(audit)) == R.Live(Picked(records, RowIds(audit)))
    decreases |audit|
  {
    hide Appended, ToRecord, EventFor;
    var n := |audit| - 1;
    if audit == [] {
    } else {
      RowsReplayRecords(audit[..n], outbox, events, records);
      var id := audit[n].rowId;
      RedactionKeepsTheWord(events[id], records[id]);
      assert Rows(audit)[..n] == Rows(audit[..n]);
      assert Picked(records, RowIds(audit))[..n] == Picked(records, RowIds(audit[..n]));
    }
  }

  // ----- The last thing said about a mailbox -----------------------------------------------------------------------

  function WordAbout(r: M.Record, mailbox: int): Word {
    if r.target == Some(mailbox) then WordOfAction(r.action) else Nothing
  }

  function LastWord(records: seq<M.Record>, mailbox: int): Word {
    if records == [] then Nothing
    else
      var word := WordAbout(records[|records| - 1], mailbox);
      if word.Nothing? then LastWord(records[..|records| - 1], mailbox) else word
  }

  lemma {:induction false} LiveByLastWord(records: seq<M.Record>, mailbox: int)
    ensures mailbox in R.Live(records) <==> LastWord(records, mailbox) == Adds
  {
    if records == [] {
    } else {
      LiveByLastWord(records[..|records| - 1], mailbox);
    }
  }

  /** Nothing is said about the mailbox from position `from` on. */
  ghost predicate SilentFrom(records: seq<M.Record>, mailbox: int, from: nat) {
    forall i :: from <= i < |records| ==> WordAbout(records[i], mailbox) == Nothing
  }

  lemma {:induction false} LastWordIs(records: seq<M.Record>, mailbox: int, at: nat)
    requires at < |records| && SilentFrom(records, mailbox, at + 1) && WordAbout(records[at], mailbox) != Nothing
    ensures LastWord(records, mailbox) == WordAbout(records[at], mailbox)
  {
    hide WordAbout;
    if at == |records| - 1 {
    } else {
      LastWordIs(records[..|records| - 1], mailbox, at);
    }
  }

  lemma {:induction false} NoWord(records: seq<M.Record>, mailbox: int)
    requires SilentFrom(records, mailbox, 0)
    ensures LastWord(records, mailbox) == Nothing
  {
    hide WordAbout;
    if records == [] {
    } else {
      NoWord(records[..|records| - 1], mailbox);
    }
  }

  /** Where the last word is said, if anywhere. */
  lemma {:induction false} LastWordAt(records: seq<M.Record>, mailbox: int) returns (at: Option<nat>)
    ensures at.None? ==> SilentFrom(records, mailbox, 0)
    ensures at.Some? ==> at.value < |records| && SilentFrom(records, mailbox, at.value + 1)
                         && WordAbout(records[at.value], mailbox) != Nothing
  {
    hide WordAbout;
    if records == [] {
      at := None;
    } else if WordAbout(records[|records| - 1], mailbox) != Nothing {
      at := Some(|records| - 1);
    } else {
      at := LastWordAt(records[..|records| - 1], mailbox);
    }
  }

  // ----- Which orders of delivery tell the truth -------------------------------------------------------------------

  /** No later delivery of the row delivered at position `i`. */
  ghost predicate IsLastCopy(ids: seq<nat>, i: nat) {
    i < |ids| && forall j :: i < j < |ids| ==> ids[j] != ids[i]
  }

  /** Every one of `n` rows is delivered, and the last deliveries of the rows come in row order. */
  ghost predicate LastCopiesInOrder(ids: seq<nat>, n: nat) {
    && (forall id :: 0 <= id < n ==> id in ids)
    && (forall i, j :: 0 <= i < j && IsLastCopy(ids, i) && IsLastCopy(ids, j) ==> ids[i] < ids[j])
  }

  lemma {:induction false} LastCopy(ids: seq<nat>, from: nat) returns (i: nat)
    requires from < |ids|
    ensures from <= i < |ids| && ids[i] == ids[from] && IsLastCopy(ids, i)
    decreases |ids| - from
  {
    if j: nat :| from < j < |ids| && ids[j] == ids[from] {
      i := LastCopy(ids, j);
    } else {
      i := from;
    }
  }

  /** What is delivered after the last copy of a row, is a later row. */
  lemma {:induction false} LaterCopiesAreLater(ids: seq<nat>, n: nat, i: nat, j: nat)
    requires LastCopiesInOrder(ids, n) && IsLastCopy(ids, i) && i < j < |ids|
    ensures ids[i] < ids[j]
  {
    var k := LastCopy(ids, j);
  }

  lemma {:induction false} OrderKeepsLastWords(records: seq<M.Record>, ids: seq<nat>, mailbox: int)
    requires LastCopiesInOrder(ids, |records|) && forall i :: 0 <= i < |ids| ==> ids[i] < |records|
    ensures LastWord(Picked(records, ids), mailbox) == LastWord(records, mailbox)
  {
    hide WordAbout, LastWord;
    var at := LastWordAt(records, mailbox);
    if at.None? {
      NoWord(records, mailbox);
      NoWord(Picked(records, ids), mailbox);
    } else {
      LastWordIs(records, mailbox, at.value);
      assert at.value in ids;
      var first: nat :| first < |ids| && ids[first] == at.value;
      var last := LastCopy(ids, first);
      forall j | last < j < |ids|
        ensures WordAbout(Picked(records, ids)[j], mailbox) == Nothing
      {
        LaterCopiesAreLater(ids, |records|, last, j);
      }
      LastWordIs(Picked(records, ids), mailbox, last);
    }
  }

  /** The rows of a service run, in the outbox and delivered in the order `ids`, as the audit log shows them. */
  ghost predicate Shows(
    c: C.Cipher, run: seq<R.Event>, audit: seq<O.Entry>, outbox: seq<O.Row>, events: seq<AuditEvent>, ids: seq<nat>)
  {
    Carries(outbox, events, DbOf(c, run).outbox) && Genuine(audit, outbox) && RowIds(audit) == ids
  }

  ghost function DbOf(c: C.Cipher, run: seq<R.Event>): M.Db {
    R.Run(R.Service(c, R.NoRows()), run).db
  }

  /** Whatever `n` records a run of the service made: delivered in this order, they tell which mailboxes exist. */
  ghost predicate OrderTells(c: C.Cipher, ids: seq<nat>, n: nat) {
    forall run, audit, outbox, events :: |outbox| == n && Shows(c, run, audit, outbox, events, ids) ==>
      LiveRows(Rows(audit)) == DbOf(c, run).mailboxes.Keys
  }

  /**
    An order of delivery tells which mailboxes exist, whatever the run of the service, if and only if it delivers
    every row and the last deliveries of the rows come in row order.
   */
  lemma {:induction false} AuditTellsIff(c: C.Cipher, ids: seq<nat>, n: nat)
    requires forall i :: 0 <= i < |ids| ==> ids[i] < n
    ensures OrderTells(c, ids, n) <==> LastCopiesInOrder(ids, n)
  {
    if LastCopiesInOrder(ids, n) {
      forall run, audit, outbox, events | |outbox| == n && Shows(c, run, audit, outbox, events, ids)
        ensures LiveRows(Rows(audit)) == DbOf(c, run).mailboxes.Keys
      {
        GoodOrderTells(c, run, audit, outbox, events, ids);
      }
    } else {
      var run := MisleadingRun(c, ids, n);
      var records := DbOf(c, run).outbox;
      var events := EventsOf(records);
      var outbox := OutboxOf(records);
      var audit := AuditOf(outbox, ids);
      AuditIsShown(c, run, ids);
      RowsReplayRecords(audit, outbox, events, records);
    }
  }

  lemma {:induction false} GoodOrderTells(
    c: C.Cipher, run: seq<R.Event>, audit: seq<O.Entry>, outbox: seq<O.Row>, events: seq<AuditEvent>, ids: seq<nat>)
    requires Shows(c, run, audit, outbox, events, ids) && LastCopiesInOrder(ids, |outbox|)
    ensures LiveRows(Rows(audit)) == DbOf(c, run).mailboxes.Keys
  {
    var records := DbOf(c, run).outbox;
    RowsReplayRecords(audit, outbox, events, records);
    R.OutboxTellsWhatLivesFromScratch(c, run);
    hide LiveRows, Carries, Genuine, R.Run, LastCopiesInOrder, LastWord, Picked, R.Live;
    SameWordsSameLive(records, ids);
  }

  lemma {:induction false} SameWordsSameLive(records: seq<M.Record>, ids: seq<nat>)
    requires LastCopiesInOrder(ids, |records|) && forall i :: 0 <= i < |ids| ==> ids[i] < |records|
    ensures R.Live(Picked(records, ids)) == R.Live(records)
  {
    forall m: int
      ensures m in R.Live(Picked(records, ids)) <==> m in R.Live(records)
    {
      OrderKeepsLastWords(records, ids, m);
      LiveByLastWord(records, m);
      LiveByLastWord(Picked(records, ids), m);
    }
  }

  // ----- Every other order misleads about some run -----------------------------------------------------------------

  /** A run of `n` records: a mailbox is created at `adds` and perhaps deleted at `removes`; the rest say nothing. */
  function ScriptedEvent(i: nat, adds: nat, removes: Option<nat>): R.Event {
    if i == adds then R.Txn(M.Create(1, Some(1), "work", "w@example.com", "gmail", "secret"), true)
    else if removes == Some(i) then R.Txn(M.Delete(M.User(1), 1), true)
    else R.Txn(M.RecordSeen(1), true)
  }

  function ScriptedRecord(i: nat, adds: nat, removes: Option<nat>): M.Record {
    M.Record(if i == adds then M.AccountCreate else if removes == Some(i) then M.AccountDelete else M.MarkSeen, Some(1))
  }

  function Script(n: nat, adds: nat, removes: Option<nat>): seq<R.Event> {
    seq(n, i requires 0 <= i < n => ScriptedEvent(i, adds, removes))
  }

  /** What the script has done after `n` of its events. */
  ghost predicate ScriptedState(s: R.Service, c: C.Cipher, n: nat, adds: nat, removes: Option<nat>) {
    && s.cipher == c && |s.db.outbox| == n
    && (forall i :: 0 <= i < n ==> s.db.outbox[i] == ScriptedRecord(i, adds, removes))
    && s.db.mailboxes.Keys == (if adds < n && !(removes.Some? && removes.value < n) then {1} else {})
    && (1 in s.db.mailboxes ==> s.db.mailboxes[1].userId == Some(1))
  }

  lemma ScriptedStep(s: R.Service, c: C.Cipher, n: nat, adds: nat, removes: Option<nat>)
    requires (removes.Some? ==> adds < removes.value) && ScriptedState(s, c, n, adds, removes)
    ensures ScriptedState(R.Handle(s, ScriptedEvent(n, adds, removes)), c, n + 1, adds, removes)
  {
    var s' := R.Handle(s, ScriptedEvent(n, adds, removes));
    assert s'.db.outbox == s.db.outbox + [ScriptedRecord(n, adds, removes)];
    hide R.Handle;
  }

  lemma {:induction false} ScriptRuns(c: C.Cipher, n: nat, adds: nat, removes: Option<nat>)
    requires removes.Some? ==> adds < removes.value
    ensures ScriptedState(R.Run(R.Service(c, R.NoRows()), Script(n, adds, removes)), c, n, adds, removes)
  {
    if n == 0 {
    } else {
      ScriptRuns(c, n - 1, adds, removes);
      var s0 := R.Service(c, R.NoRows());
      var earlier, e := Script(n - 1, adds, removes), ScriptedEvent(n - 1, adds, removes);
      assert Script(n, adds, removes) == earlier + [e];
      R.RunOfAppend(s0, earlier, e);
      hide R.Run, R.Handle, ScriptedState;
      ScriptedStep(R.Run(s0, earlier), c, n - 1, adds, removes);
    }
  }

  /** A run about which this order of delivery misleads. */
  lemma {:induction false} MisleadingRun(c: C.Cipher, ids: seq<nat>, n: nat) returns (run: seq<R.Event>)
    requires !LastCopiesInOrder(ids, n) && forall i :: 0 <= i < |ids| ==> ids[i] < n
    ensures |DbOf(c, run).outbox| == n
    ensures R.Live(Picked(DbOf(c, run).outbox, ids)) != DbOf(c, run).mailboxes.Keys
  {
    hide R.Run, R.Live;
    if id: nat :| id < n && id !in ids {
      run := Script(n, id, None);
      ScriptRuns(c, n, id, None);
      var picked := Picked(DbOf(c, run).outbox, ids);
      NoWord(picked, 1);
      LiveByLastWord(picked, 1);
    } else {
      var i: nat, j: nat :| i < j && IsLastCopy(ids, i) && IsLastCopy(ids, j) && ids[i] >= ids[j];
      run := Script(n, ids[j], Some(ids[i]));
      ScriptRuns(c, n, ids[j], Some(ids[i]));
      var picked := Picked(DbOf(c, run).outbox, ids);
      LastWordIs(picked, 1, j);
      LiveByLastWord(picked, 1);
    }
  }

  function NameOf(action: M.Action): string {
    match action
    case AccountCreate => "account.create"
    case VerifySent => "mailbox.app_password_verify_sent"
    case VerifyCompleted => "mailbox.app_password_verify_completed"
    case OauthCompleted => "mailbox.oauth_completed"
    case TokenRefreshed => "mailbox.oauth_token_refreshed"
    case NameUpdated => "mailbox.name_updated"
    case CredentialsUpdate => "credentials.update"
    case KeyRotated => "apikey.rotate"
    case AccountDelete => "account.delete"
    case MarkSeen => "message.mark_seen"
  }

  function EventOf(r: M.Record): AuditEvent {
    AuditEvent(NameOf(r.action), "anonymous", None, "success", "system", "0.0.0.0", "unknown", r.target, Obj([]), 0)
  }

  function Undelivered(event: Json): O.Row {
    O.Row(event, false, 0, None)
  }

  function EventsOf(records: seq<M.Record>): seq<AuditEvent> {
    seq(|records|, i requires 0 <= i < |records| => EventOf(records[i]))
  }

  function OutboxOf(records: seq<M.Record>): seq<O.Row> {
    seq(|records|, i requires 0 <= i < |records| => Undelivered(ToRecord(EventOf(records[i]))))
  }

  function AuditOf(outbox: seq<O.Row>, ids: seq<nat>): seq<O.Entry>
    requires forall i :: 0 <= i < |ids| ==> ids[i] < |outbox|
  {
    seq(|ids|, i requires 0 <= i < |ids| => O.Entry(ids[i], Appended(outbox[ids[i]].event)))
  }

  lemma AuditIsShown(c: C.Cipher, run: seq<R.Event>, ids: seq<nat>)
    requires forall i :: 0 <= i < |ids| ==> ids[i] < |DbOf(c, run).outbox|
    ensures var records := DbOf(c, run).outbox;
            Shows(c, run, AuditOf(OutboxOf(records), ids), OutboxOf(records), EventsOf(records), ids)
  {
    hide Appended, ToRecord, R.Run;
  }

  // ----- Deliveries in order ---------------------------------------------------------------------------------------

  /** All rows are delivered, and no copy of a row comes after a copy of a later one. */
  ghost predicate InOrder(ids: seq<nat>, n: nat) {
    && (forall i, j :: 0 <= i <= j < |ids| ==> ids[i] <= ids[j])
    && (forall i :: 0 <= i < |ids| ==> ids[i] < n)
    && (forall id :: 0 <= id < n ==> id in ids)
  }

  /** Rows delivered in order, though some more than once, tell exactly which mailboxes exist. */
  lemma {:induction false} OrderedAuditTells(
    c: C.Cipher, run: seq<R.Event>, audit: seq<O.Entry>, outbox: seq<O.Row>, events: seq<AuditEvent>)
    requires Carries(outbox, events, DbOf(c, run).outbox) && Genuine(audit, outbox)
    requires InOrder(RowIds(audit), |outbox|)
    ensures LiveRows(Rows(audit)) == DbOf(c, run).mailboxes.Keys
  {
    hide R.Run, LiveRows, Carries, Genuine, RowIds;
    AuditTellsIff(c, RowIds(audit), |outbox|);
    assert Shows(c, run, audit, outbox, events, RowIds(audit));
  }

  // ----- An undisturbed outbox, and a disturbed one ----------------------------------------------------------------

  lemma {:induction false} NoneDelivered(outbox: seq<O.Row>)
    requires forall i :: 0 <= i < |outbox| ==> !outbox[i].delivered
    ensures |O.AllPending(outbox)| == |outbox|
    ensures forall i :: 0 <= i < |outbox| ==> O.AllPending(outbox)[i] == i
  {
    if outbox == [] {
    } else {
      NoneDelivered(outbox[..|outbox| - 1]);
    }
  }

  lemma {:induction false} EntriesAreGenuine(outbox: seq<O.Row>, ids: seq<nat>)
    requires forall i :: 0 <= i < |ids| ==> ids[i] < |outbox|
    ensures RowIds(O.Entries(outbox, ids)) == ids && Genuine(O.Entries(outbox, ids), outbox)
  {
    hide Appended;
    if ids == [] {
    } else {
      EntriesAreGenuine(outbox, ids[..|ids| - 1]);
      assert ids == ids[..|ids| - 1] + [ids[|ids| - 1]];
    }
  }

  lemma DrainedAudit(s: O.System, limit: nat, steps: seq<O.Step>)
    requires O.Undisturbed(s, limit, steps) && s.audit == []
    requires limit >= 1 && (|O.AllPending(s.outbox)| + limit - 1) / limit <= O.Returns(steps)
    ensures O.After(s, steps).audit == O.Entries(s.outbox, O.AllPending(s.outbox))
  {
    hide O.AllPending, O.Entries, O.Returns;
    O.OutboxDrains(s, limit, steps);
    assert [] + O.Entries(s.outbox, O.AllPending(s.outbox)) == O.Entries(s.outbox, O.AllPending(s.outbox));
  }

  lemma {:induction false} UndisturbedIsInOrder(s: O.System, limit: nat, steps: seq<O.Step>)
    requires O.Undisturbed(s, limit, steps)
    requires s.audit == [] && forall i :: 0 <= i < |s.outbox| ==> !s.outbox[i].delivered
    requires limit >= 1 && (|s.outbox| + limit - 1) / limit <= O.Returns(steps)
    ensures var audit := O.After(s, steps).audit;
            Genuine(audit, s.outbox) && InOrder(RowIds(audit), |s.outbox|)
  {
    var pending := O.AllPending(s.outbox);
    hide O.AllPending, O.Entries, O.Returns, O.CanRun, Genuine, RowIds, InOrder;
    NoneDelivered(s.outbox);
    DrainedAudit(s, limit, steps);
    EntriesAreGenuine(s.outbox, pending);
    CountingIsInOrder(pending);
  }

  lemma CountingIsInOrder(ids: seq<nat>)
    requires forall i :: 0 <= i < |ids| ==> ids[i] == i
    ensures InOrder(ids, |ids|)
  {
    forall id | 0 <= id < |ids|
      ensures id in ids
    {
      assert ids[id] == id;
    }
  }

  /** Enough dispatches without a failure, in whatever run of them, and the log tells exactly which mailboxes exist. */
  lemma {:induction false} UndisturbedAuditTells(
    c: C.Cipher, run: seq<R.Event>, s: O.System, events: seq<AuditEvent>, limit: nat, steps: seq<O.Step>)
    requires O.Undisturbed(s, limit, steps)
    requires s.audit == [] && forall i :: 0 <= i < |s.outbox| ==> !s.outbox[i].delivered
    requires Carries(s.outbox, events, DbOf(c, run).outbox)
    requires limit >= 1 && (|s.outbox| + limit - 1) / limit <= O.Returns(steps)
    ensures LiveRows(Rows(O.After(s, steps).audit)) == DbOf(c, run).mailboxes.Keys
  {
    hide DbOf, LiveRows, O.CanRun, O.Returns, Carries, Genuine, InOrder, Rows, RowIds;
    UndisturbedIsInOrder(s, limit, steps);
    OrderedAuditTells(c, run, O.After(s, steps).audit, s.outbox, events);
  }

  /** Two rows, and a dispatch in which appending the first fails. */
  lemma {:induction false} FirstRowFails(first: Json, second: Json) returns (steps: seq<O.Step>, s: O.System)
    ensures O.CanRun(O.EMPTY, steps) && O.After(O.EMPTY, steps) == s
    ensures s.outbox == [O.Row(first, false, 1, Some("unreachable")), O.Row(second, true, 0, None)]
    ensures s.audit == [O.Entry(1, Appended(second))] && s.dispatcher.Idle? && s.aborted == 0
  {
    hide Appended, O.CanRun, O.After;
    O.RunOfNothing(O.EMPTY);
    steps, s := Then([], O.EMPTY, O.Enqueue(first));
    steps, s := Then(steps, s, O.Enqueue(second));
    assert s.outbox == [Undelivered(first), Undelivered(second)];
    PendingOfTwo(s.outbox);
    steps, s := Then(steps, s, O.Begin(100));
    assert s.dispatcher.todo == [0, 1];
    hide O.AllPending, O.DeliveredCount;
    steps, s := Then(steps, s, O.AppendFails);
    steps, s := Then(steps, s, O.NoteFailure("unreachable", true));
    assert s.dispatcher.todo == [1];
    steps, s := Then(steps, s, O.Append(true));
    steps, s := Then(steps, s, O.Mark(true));
    assert s.dispatcher.todo == [];
    steps, s := Then(steps, s, O.Return);
  }

  /** The next dispatch delivers it, after the second. */
  lemma {:induction false} FirstRowIsLate(first: Json, second: Json) returns (steps: seq<O.Step>, s: O.System)
    ensures O.CanRun(O.EMPTY, steps) && O.After(O.EMPTY, steps) == s
    ensures s.outbox == [O.Row(first, true, 1, None), O.Row(second, true, 0, None)]
    ensures s.audit == [O.Entry(1, Appended(second)), O.Entry(0, Appended(first))] && s.aborted == 0
  {
    hide Appended, O.CanRun, O.After;
    steps, s := FirstRowFails(first, second);
    PendingOfTwo(s.outbox);
    steps, s := Then(steps, s, O.Begin(100));
    assert s.dispatcher.todo == [0];
    hide O.AllPending, O.DeliveredCount;
    steps, s := Then(steps, s, O.Append(true));
    steps, s := Then(steps, s, O.Mark(true));
  }

  lemma PendingOfTwo(outbox: seq<O.Row>)
    requires |outbox| == 2
    ensures O.AllPending(outbox)
         == (if outbox[0].delivered then [] else [0]) + (if outbox[1].delivered then [] else [1])
  {
    assert outbox[..1][..0] == [];
    assert O.AllPending(outbox[..1]) == if outbox[0].delivered then [] else [0];
  }

  /** One more step of a run from the empty system. */
  lemma Then(steps: seq<O.Step>, s: O.System, step: O.Step) returns (steps': seq<O.Step>, s': O.System)
    requires O.CanRun(O.EMPTY, steps) && O.After(O.EMPTY, steps) == s && O.Enabled(s, step)
    ensures s' == O.Next(s, step) && O.CanRun(O.EMPTY, steps') && O.After(O.EMPTY, steps') == s'
  {
    O.ExtendedRun(O.EMPTY, steps, step);
    steps', s' := steps + [step], O.Next(s, step);
  }

  /**
    One failed append is enough to spoil the replay: a mailbox is created and deleted, the row of its creation is
    delivered late, and the fully delivered audit log says that the mailbox exists.
   */
  lemma {:induction false} DeletedMailboxComesBack(c: C.Cipher, created: AuditEvent, deleted: AuditEvent)
    returns (run: seq<R.Event>, steps: seq<O.Step>)
    requires EventFor(created, M.Record(M.AccountCreate, Some(1)))
    requires EventFor(deleted, M.Record(M.AccountDelete, Some(1)))
    ensures var db := R.Run(R.Service(c, R.NoRows()), run).db;
            O.CanRun(O.EMPTY, steps)
            && var s := O.After(O.EMPTY, steps);
            && Carries(s.outbox, [created, deleted], db.outbox) && s.aborted == 0
            && (forall i :: 0 <= i < |s.outbox| ==> s.outbox[i].delivered)
            && db.mailboxes.Keys == {} && LiveRows(Rows(s.audit)) == {1}
  {
    hide Appended, ToRecord, EventFor, R.Run, O.After, O.CanRun, LiveRows, Rows;
    run := CreateAndDelete(c);
    var s: O.System;
    steps, s := FirstRowIsLate(ToRecord(created), ToRecord(deleted));
    LateReplay(s.outbox, s.audit, [created, deleted], R.Run(R.Service(c, R.NoRows()), run).db.outbox);
  }

  lemma LateReplay(outbox: seq<O.Row>, audit: seq<O.Entry>, events: seq<AuditEvent>, records: seq<M.Record>)
    requires Carries(outbox, events, records) && Genuine(audit, outbox) && RowIds(audit) == [1, 0]
    requires records == [M.Record(M.AccountCreate, Some(1)), M.Record(M.AccountDelete, Some(1))]
    ensures LiveRows(Rows(audit)) == {1}
  {
    RowsReplayRecords(audit, outbox, events, records);
    hide LiveRows, Rows, Carries, Genuine;
    var late := [records[1], records[0]];
    assert Picked(records, RowIds(audit)) == late;
    assert late == [] + [records[1]] + [records[0]];
    assert R.Live([]) == {};
    R.LiveOfLogged([], records[1]);
    R.LiveOfLogged([] + [records[1]], records[0]);
    hide R.Live, RowIds, Picked;
  }

  lemma CreateAndDelete(c: C.Cipher) returns (run: seq<R.Event>)
    ensures var db := R.Run(R.Service(c, R.NoRows()), run).db;
            && db.mailboxes.Keys == {}
            && db.outbox == [M.Record(M.AccountCreate, Some(1)), M.Record(M.AccountDelete, Some(1))]
  {
    var create := R.Txn(M.Create(1, Some(1), "work", "w@example.com", "gmail", "secret"), true);
    var remove := R.Txn(M.Delete(M.User(1), 1), true);
    run := [create, remove];
    var s0 := R.Service(c, R.NoRows());
    R.ShortRuns(s0, create, remove, remove);
    hide R.Run;
    assert R.Handle(s0, create).db.outbox == [M.Record(M.AccountCreate, Some(1))];
    assert 1 in R.Handle(s0, create).db.mailboxes;
  }
}
