/**
  Whole runs of the repository service: transactions that commit or not, and restarts with more keys. The outbox
  tells exactly which mailboxes exist, and every stored credential opens to the last plaintext written.
*/
module MailboxRuns {
  import opened Common
  import opened Crypto
  import A = Accounts
  import opened Mailboxes

  datatype Event = Txn(op: Op, commits: bool) | Restart(cipher: Cipher)

  datatype Service = Service(cipher: Cipher, db: Db)

  function NoRows(): Db {
    Db(map[], map[], [])
  }

  ghost function Handle(s: Service, e: Event): Service {
    match e
    case Txn(op, commits) => s.(db := Transact(s.cipher, s.db, op, commits))
    case Restart(cipher) => s.(cipher := cipher)
  }

  ghost function Run(s: Service, events: seq<Event>): Service
    decreases |events|
  {
    if events == [] then s else Run(Handle(s, events[0]), events[1..])
  }

  lemma {:induction false} RunOfAppend(s: Service, events: seq<Event>, e: Event)
    ensures Run(s, events + [e]) == Handle(Run(s, events), e)
    decreases |events|
  {
    hide Handle;
    if events == [] {
      assert [] + [e] == [e] && [e][1..] == [];
    } else {
      assert (events + [e])[1..] == events[1..] + [e];
      RunOfAppend(Handle(s, events[0]), events[1..], e);
    }
  }

  /** In every committed state of every run, names and e-mails are unique per user. */
  lemma {:induction false} RowsAreUnique(s: Service, events: seq<Event>)
    requires UniqueRows(s.db)
    ensures UniqueRows(Run(s, events).db)
    decreases |events|
  {
    hide UniqueRows, Transact;
    if events == [] {
    } else {
      if events[0].Txn? {
        TransactKeepsUnique(s.cipher, s.db, events[0].op, events[0].commits);
      }
      RowsAreUnique(Handle(s, events[0]), events[1..]);
    }
  }

  // ----- The outbox tells which mailboxes exist ------------------------------------------------------------------

  /** Replaying audit records: creations and completed connections add their target, deletion removes it. */
  function Live(outbox: seq<Record>): set<int> {
    if outbox == [] then {}
    else
      var before, last := Live(outbox[..|outbox| - 1]), outbox[|outbox| - 1];
      if last.target.None? then before
      else
        match last.action
        case AccountCreate => before + {last.target.value}
        case VerifyCompleted => before + {last.target.value}
        case OauthCompleted => before + {last.target.value}
        case AccountDelete => before - {last.target.value}
        case _ => before
  }

  lemma LiveOfLogged(outbox: seq<Record>, r: Record)
    ensures Live(outbox + [r])
         == if r.target.None? then Live(outbox)
            else if r.action.AccountCreate? || r.action.VerifyCompleted? || r.action.OauthCompleted?
            then Live(outbox) + {r.target.value}
            else if r.action.AccountDelete? then Live(outbox) - {r.target.value}
            else Live(outbox)
  {
    assert (outbox + [r])[..|outbox|] == outbox;
  }

  lemma {:induction false} BodyKeepsLive(c: Cipher, db: Db, op: Op)
    requires Live(db.outbox) == db.mailboxes.Keys && Body(c, db, op).Ok?
    ensures Live(Body(c, db, op).value.outbox) == Body(c, db, op).value.mailboxes.Keys
  {
    hide Live, WithTokens, PasswordRow, WithPassword;
    var db' := Body(c, db, op).value;
    if db'.outbox != db.outbox {
      var r := db'.outbox[|db'.outbox| - 1];
      assert db'.outbox == db.outbox + [r];
      LiveOfLogged(db.outbox, r);
    }
  }

  /** In every committed state, replaying the outbox in order yields exactly the ids of the live mailboxes. */
  lemma {:induction false} OutboxTellsWhatLives(s: Service, events: seq<Event>)
    requires Live(s.db.outbox) == s.db.mailboxes.Keys
    ensures Live(Run(s, events).db.outbox) == Run(s, events).db.mailboxes.Keys
    decreases |events|
  {
    hide Body, Live;
    if events == [] {
    } else {
      var e := events[0];
      if e.Txn? && e.commits && Body(s.cipher, s.db, e.op).Ok? {
        BodyKeepsLive(s.cipher, s.db, e.op);
      }
      OutboxTellsWhatLives(Handle(s, e), events[1..]);
    }
  }

  lemma {:induction false} OutboxTellsWhatLivesFromScratch(c: Cipher, events: seq<Event>)
    ensures Live(Run(Service(c, NoRows()), events).db.outbox) == Run(Service(c, NoRows()), events).db.mailboxes.Keys
  {
    OutboxTellsWhatLives(Service(c, NoRows()), events);
  }

  // ----- Credentials survive key rotation --------------------------------------------------------------------------

  /** The plaintexts last written for a mailbox. */
  datatype Secrets = Secrets(password: Option<string>, refresh: Option<string>, access: Option<string>)

  ghost predicate Opens(c: Cipher, sealed: Option<Sealed>, version: nat, plaintext: Option<string>) {
    && (sealed.None? <==> plaintext.None?)
    && (sealed.Some? && plaintext.Some? ==> Decrypt(c, sealed.value, version) == Ok(plaintext.value))
  }

  /** All that is stored for a mailbox opens, under its one key version, to what was written last. */
  ghost predicate Readable(c: Cipher, m: Mailbox, s: Secrets) {
    && Opens(c, m.password, m.keyVersion, s.password)
    && Opens(c, m.refreshToken, m.keyVersion, s.refresh)
    && Opens(c, m.accessToken, m.keyVersion, s.access)
  }

  /** A refresh goes ahead for an OAuth mailbox whose access token is about to expire. */
  predicate Refreshes(m: Mailbox, now: Instant, answer: Answer) {
    m.authType.OAuth2? && m.accessToken.Some? && NeedsRefresh(m, now) && answer.Refreshed?
  }

  /** What an operation, if it commits, means for the plaintexts. */
  ghost function Noted(c: Cipher, db: Db, secrets: map<int, Secrets>, op: Op): map<int, Secrets> {
    match op
    case Create(id, _, _, _, _, password) => secrets[id := Secrets(Some(password), None, None)]
    case CompleteVerification(id, _, vid, _, _) =>
      if vid in db.verifications
      then secrets[id := Secrets(Some(db.verifications[vid].password.ciphertext.plaintext), None, None)] else secrets
    case ConnectOauth(id, user, name, _, _, refresh, access, _) =>
      secrets[Existing(db, Some(user), name).GetOr(id) := Secrets(None, Some(refresh), access)]
    case UpdateCredentials(_, id, password) =>
      if id in secrets then secrets[id := secrets[id].(password := Some(password))] else secrets
    case Resolve(id, now, answer) =>
      if id in secrets && id in db.mailboxes && Refreshes(db.mailboxes[id], now, answer)
      then secrets[id := secrets[id].(access := Some(answer.accessToken))] else secrets
    case Delete(_, id) => secrets - {id}
    case _ => secrets
  }

  ghost function Remembered(s: Service, secrets: map<int, Secrets>, e: Event): map<int, Secrets> {
    if e.Txn? && e.commits && Body(s.cipher, s.db, e.op).Ok? then Noted(s.cipher, s.db, secrets, e.op) else secrets
  }

  ghost function LastWritten(s: Service, secrets: map<int, Secrets>, events: seq<Event>): map<int, Secrets>
    decreases |events|
  {
    if events == [] then secrets
    else LastWritten(Handle(s, events[0]), Remembered(s, secrets, events[0]), events[1..])
  }

  /** The key a mailbox's stored credentials are sealed under is still the active one. */
  predicate UnderActiveKey(c: Cipher, m: Mailbox) {
    m.keyVersion in c.keys && c.keys[m.keyVersion] == ActiveKey(c)
  }

  /**
    Storing a password keeps everything readable exactly when the mailbox has no tokens, or its tokens are sealed
    under the active key: the service itself does not look at the kind of mailbox.
   */
  lemma {:induction false} PasswordStrandsTokens(c: Cipher, m: Mailbox, s: Secrets, password: string)
    requires Readable(c, m, s)
    ensures Readable(c, WithPassword(c, m, password), s.(password := Some(password)))
       <==> (m.refreshToken.None? && m.accessToken.None?) || UnderActiveKey(c, m)
  {
  }

  /** Refreshing, the other way round, keeps a password readable exactly when there is none or its key is active. */
  lemma {:induction false} RefreshStrandsPassword(c: Cipher, m: Mailbox, s: Secrets, answer: Answer)
    requires Readable(c, m, s) && m.refreshToken.Some? && answer.Refreshed?
    ensures Refresh(c, m, answer).Ok?
    ensures Readable(c, Refresh(c, m, answer).value, s.(access := Some(answer.accessToken)))
       <==> m.password.None? || UnderActiveKey(c, m)
  {
  }

  /** One concrete loss: a mailbox connected under version 1 is given a password after version 2 became active. */
  lemma StrandedTokens() returns (before: Cipher, later: Cipher, connect: Event, update: Event)
    ensures Extends(later, before) && update.Txn? && update.op.UpdateCredentials?
    ensures var s := Run(Service(before, NoRows()), [connect, Restart(later)]);
            1 in s.db.mailboxes && Credential(later, s.db.mailboxes[1]) == Ok("access")
    ensures var s := Run(Service(before, NoRows()), [connect, Restart(later), update]);
            1 in s.db.mailboxes && Credential(later, s.db.mailboxes[1]) == Err(Undecryptable)
  {
    before := CipherData(map[1 := 10], 1);
    later := CipherData(map[1 := 10, 2 := 20], 2);
    connect := Txn(ConnectOauth(1, 1, "work", "w@example.com", "gmail", "refresh", Some("access"), None), true);
    update := Txn(UpdateCredentials(User(1), 1, "secret"), true);
    assert A.ValidName("work");
    var s0 := Service(before, NoRows());
    assert NamedIds(NoRows(), Some(1), "work") == {};
    var s1 := Handle(s0, connect);
    assert 1 in s1.db.mailboxes;
    ShortRuns(s0, connect, Restart(later), update);
    hide Run;
  }

  lemma ShortRuns(s: Service, e1: Event, e2: Event, e3: Event)
    ensures Run(s, [e1, e2]) == Handle(Handle(s, e1), e2)
    ensures Run(s, [e1, e2, e3]) == Handle(Handle(Handle(s, e1), e2), e3)
  {
    hide Handle;
    assert [e1, e2][1..] == [e2] && [e2][1..] == [];
    assert Run(Handle(s, e1), [e2]) == Run(Handle(Handle(s, e1), e2), []);
    assert [e1, e2, e3][1..] == [e2, e3] && [e2, e3][1..] == [e3] && [e3][1..] == [];
    assert Run(Handle(s, e1), [e2, e3]) == Run(Handle(Handle(s, e1), e2), [e3]);
  }

  /** The condition, on what is stored before the call, under which a committed operation strands nothing. */
  predicate Safe(c: Cipher, db: Db, op: Op) {
    match op
    case UpdateCredentials(_, id, _) =>
      id in db.mailboxes ==>
        (db.mailboxes[id].refreshToken.None? && db.mailboxes[id].accessToken.None?)
        || UnderActiveKey(c, db.mailboxes[id])
    case Resolve(id, now, answer) =>
      id in db.mailboxes && Refreshes(db.mailboxes[id], now, answer) ==>
        db.mailboxes[id].password.None? || UnderActiveKey(c, db.mailboxes[id])
    case _ => true
  }

  ghost predicate SubmissionsReadable(c: Cipher, db: Db) {
    forall vid :: vid in db.verifications ==>
      var e := db.verifications[vid].password;
      Decrypt(c, e.ciphertext, e.keyVersion) == Ok(e.ciphertext.plaintext)
  }

  ghost predicate AllReadable(c: Cipher, db: Db, secrets: map<int, Secrets>) {
    && secrets.Keys == db.mailboxes.Keys
    && forall id :: id in db.mailboxes ==> Readable(c, db.mailboxes[id], secrets[id])
  }

  ghost predicate Commits(s: Service, e: Event) {
    e.Txn? && e.commits && Body(s.cipher, s.db, e.op).Ok?
  }

  /** Restarts only add keys. */
  ghost predicate KeysOnlyGrow(s: Service, events: seq<Event>)
    decreases |events|
  {
    events != [] ==>
      (events[0].Restart? ==> Extends(events[0].cipher, s.cipher)) && KeysOnlyGrow(Handle(s, events[0]), events[1..])
  }

  ghost predicate AlwaysSafe(s: Service, events: seq<Event>)
    decreases |events|
  {
    events != [] ==>
      (Commits(s, events[0]) ==> Safe(s.cipher, s.db, events[0].op)) && AlwaysSafe(Handle(s, events[0]), events[1..])
  }

  ghost predicate AlwaysReadable(s: Service, secrets: map<int, Secrets>, events: seq<Event>)
    decreases |events|
  {
    && AllReadable(s.cipher, s.db, secrets)
    && (events != [] ==> AlwaysReadable(Handle(s, events[0]), Remembered(s, secrets, events[0]), events[1..]))
  }

  lemma {:induction false} ExtendingKeepsReadable(c: Cipher, later: Cipher, db: Db, secrets: map<int, Secrets>)
    requires Extends(later, c) && AllReadable(c, db, secrets)
    ensures AllReadable(later, db, secrets)
  {
  }

  lemma {:induction false} ExtendingKeepsSubmissions(c: Cipher, later: Cipher, db: Db)
    requires Extends(later, c) && SubmissionsReadable(c, db)
    ensures SubmissionsReadable(later, db)
  {
  }

  lemma {:induction false} CreateKeepsReadable(c: Cipher, db: Db, secrets: map<int, Secrets>, op: Op)
    requires AllReadable(c, db, secrets) && SubmissionsReadable(c, db)
    requires (op.Create? || op.CompleteVerification?) && Body(c, db, op).Ok?
    ensures AllReadable(c, Body(c, db, op).value, Noted(c, db, secrets, op))
  {
  }

  lemma {:induction false} ConnectKeepsReadable(c: Cipher, db: Db, secrets: map<int, Secrets>, op: Op)
    requires AllReadable(c, db, secrets) && op.ConnectOauth? && Body(c, db, op).Ok?
    ensures AllReadable(c, Body(c, db, op).value, Noted(c, db, secrets, op))
  {
  }

  lemma {:induction false} ResolveIsReadableIffSafe(c: Cipher, db: Db, secrets: map<int, Secrets>, op: Op)
    requires AllReadable(c, db, secrets) && op.Resolve? && Body(c, db, op).Ok?
    ensures AllReadable(c, Body(c, db, op).value, Noted(c, db, secrets, op)) <==> Safe(c, db, op)
  {
    var m := db.mailboxes[op.id];
    if Refreshes(m, op.now, op.answer) {
      RefreshStrandsPassword(c, m, secrets[op.id], op.answer);
      assert op.id in Body(c, db, op).value.mailboxes;
    }
  }

  lemma {:induction false} UpdateIsReadableIffSafe(c: Cipher, db: Db, secrets: map<int, Secrets>, op: Op)
    requires AllReadable(c, db, secrets) && op.UpdateCredentials? && Body(c, db, op).Ok?
    ensures AllReadable(c, Body(c, db, op).value, Noted(c, db, secrets, op)) <==> Safe(c, db, op)
  {
    PasswordStrandsTokens(c, db.mailboxes[op.id], secrets[op.id], op.password);
    assert op.id in Body(c, db, op).value.mailboxes;
  }

  lemma {:induction false} OtherOpsKeepReadable(c: Cipher, db: Db, secrets: map<int, Secrets>, op: Op)
    requires AllReadable(c, db, secrets) && Body(c, db, op).Ok?
    requires op.StartVerification? || op.Rename? || op.RotateApiKey? || op.RecordSeen? || op.Delete?
          || op.AssignUser?
    ensures AllReadable(c, Body(c, db, op).value, Noted(c, db, secrets, op))
  {
  }

  lemma {:induction false} BodyKeepsSubmissions(c: Cipher, db: Db, op: Op)
    requires SubmissionsReadable(c, db) && Body(c, db, op).Ok?
    ensures SubmissionsReadable(c, Body(c, db, op).value)
  {
  }

  lemma {:induction false} BodyIsReadableIffSafe(c: Cipher, db: Db, secrets: map<int, Secrets>, op: Op)
    requires AllReadable(c, db, secrets) && SubmissionsReadable(c, db) && Body(c, db, op).Ok?
    ensures AllReadable(c, Body(c, db, op).value, Noted(c, db, secrets, op)) <==> Safe(c, db, op)
  {
    hide AllReadable, SubmissionsReadable, Noted, Body;
    match op {
      case Create(_, _, _, _, _, _) => CreateKeepsReadable(c, db, secrets, op);
      case CompleteVerification(_, _, _, _, _) => CreateKeepsReadable(c, db, secrets, op);
      case ConnectOauth(_, _, _, _, _, _, _, _) => ConnectKeepsReadable(c, db, secrets, op);
      case UpdateCredentials(_, _, _) => UpdateIsReadableIffSafe(c, db, secrets, op);
      case Resolve(_, _, _) => ResolveIsReadableIffSafe(c, db, secrets, op);
      case _ => OtherOpsKeepReadable(c, db, secrets, op);
    }
  }

  /**
    Over every run of transactions, rollbacks and restarts that add keys: all that is stored stays readable, after
    every event, exactly when every committed password update and token refresh met its condition beforehand.
   */
  lemma {:induction false} ReadableIffAlwaysSafe(s: Service, secrets: map<int, Secrets>, events: seq<Event>)
    requires AllReadable(s.cipher, s.db, secrets) && SubmissionsReadable(s.cipher, s.db) && KeysOnlyGrow(s, events)
    ensures AlwaysReadable(s, secrets, events) <==> AlwaysSafe(s, events)
    decreases |events|
  {
    hide Body, Noted, AllReadable, SubmissionsReadable, Safe;
    if events == [] {
    } else {
      var e := events[0];
      if e.Restart? {
        ExtendingKeepsReadable(s.cipher, e.cipher, s.db, secrets);
        ExtendingKeepsSubmissions(s.cipher, e.cipher, s.db);
      } else if Commits(s, e) {
        BodyIsReadableIffSafe(s.cipher, s.db, secrets, e.op);
        BodyKeepsSubmissions(s.cipher, s.db, e.op);
      }
      if Commits(s, e) ==> Safe(s.cipher, s.db, e.op) {
        ReadableIffAlwaysSafe(Handle(s, e), Remembered(s, secrets, e), events[1..]);
      }
    }
  }

  lemma {:induction false} ReadableAtTheEnd(s: Service, secrets: map<int, Secrets>, events: seq<Event>)
    requires AlwaysReadable(s, secrets, events)
    ensures AllReadable(Run(s, events).cipher, Run(s, events).db, LastWritten(s, secrets, events))
    decreases |events|
  {
    hide Body, Noted, AllReadable;
    if events == [] {
    } else {
      ReadableAtTheEnd(Handle(s, events[0]), Remembered(s, secrets, events[0]), events[1..]);
    }
  }

  /** Passwords are only updated on password mailboxes. */
  ghost predicate Careful(s: Service, events: seq<Event>)
    decreases |events|
  {
    events != [] ==>
      && (events[0].Txn? && events[0].op.UpdateCredentials? && events[0].op.id in s.db.mailboxes ==>
            s.db.mailboxes[events[0].op.id].authType.AppPassword?)
      && Careful(Handle(s, events[0]), events[1..])
  }

  /** A password mailbox has no tokens, and an OAuth mailbox no password. */
  ghost predicate KeepsToItsKind(m: Mailbox) {
    if m.authType.AppPassword? then m.refreshToken.None? && m.accessToken.None? else m.password.None?
  }

  ghost predicate AllKeepToTheirKind(db: Db) {
    forall id :: id in db.mailboxes ==> KeepsToItsKind(db.mailboxes[id])
  }

  lemma {:induction false} BodyKeepsKinds(c: Cipher, db: Db, op: Op)
    requires AllKeepToTheirKind(db) && Body(c, db, op).Ok?
    requires op.UpdateCredentials? && op.id in db.mailboxes ==> db.mailboxes[op.id].authType.AppPassword?
    ensures AllKeepToTheirKind(Body(c, db, op).value) && Safe(c, db, op)
  {
  }

  lemma {:induction false} CarefulIsSafe(s: Service, events: seq<Event>)
    requires AllKeepToTheirKind(s.db) && Careful(s, events)
    ensures AlwaysSafe(s, events)
    decreases |events|
  {
    hide Body, AllKeepToTheirKind, Safe;
    if events == [] {
    } else {
      if Commits(s, events[0]) {
        BodyKeepsKinds(s.cipher, s.db, events[0].op);
      }
      CarefulIsSafe(Handle(s, events[0]), events[1..]);
    }
  }

  /**
    Over every run of transactions, rollbacks and restarts that add keys, in which passwords are only updated on
    password mailboxes: each mailbox's password, or both its tokens, open under its key version to the plaintexts
    last written, and the runtime is given exactly that password or access token.
   */
  lemma {:induction false} CredentialsSurviveRotation(c: Cipher, events: seq<Event>, id: int)
    requires KeysOnlyGrow(Service(c, NoRows()), events) && Careful(Service(c, NoRows()), events)
    requires id in Run(Service(c, NoRows()), events).db.mailboxes
    ensures var s := Run(Service(c, NoRows()), events);
            var written := LastWritten(Service(c, NoRows()), map[], events);
            var m := s.db.mailboxes[id];
            && id in written
            && Readable(s.cipher, m, written[id])
            && (m.authType.AppPassword? && written[id].password.Some? ==>
                  Credential(s.cipher, m) == Ok(written[id].password.value))
            && (m.authType.OAuth2? && written[id].access.Some? ==>
                  Credential(s.cipher, m) == Ok(written[id].access.value))
  {
    CarefulIsSafe(Service(c, NoRows()), events);
    ReadableIffAlwaysSafe(Service(c, NoRows()), map[], events);
    ReadableAtTheEnd(Service(c, NoRows()), map[], events);
  }

  // ----- Wrong codes are not counted -------------------------------------------------------------------------------

  /** `e` hands in a wrong code for verification `vid`: it is answered with that error. */
  ghost predicate IsWrongCode(s: Service, e: Event, vid: string) {
    e.Txn? && e.op.CompleteVerification? && e.op.vid == vid && Body(s.cipher, s.db, e.op) == Err(VerificationFailed)
  }

  ghost function WrongCodes(s: Service, events: seq<Event>, vid: string): nat
    decreases |events|
  {
    if events == [] then 0
    else (if IsWrongCode(s, events[0], vid) then 1 else 0) + WrongCodes(Handle(s, events[0]), events[1..], vid)
  }

  /** What the code sets out to do: count the wrong codes, and fail the verification at the fifth. */
  ghost predicate AtMostFive(v: Verification, wrong: nat) {
    wrong <= 5 && (v.status.Failed? <==> wrong == 5)
  }

  ghost predicate NothingCounted(db: Db) {
    forall vid :: vid in db.verifications ==>
      var v := db.verifications[vid];
      v.attempts == 0 && (v.status.Verifying? || v.status.Verified?)
  }

  lemma {:induction false} RunCountsNothing(s: Service, events: seq<Event>)
    requires NothingCounted(s.db)
    ensures NothingCounted(Run(s, events).db)
    decreases |events|
  {
    if events == [] {
    } else {
      if Commits(s, events[0]) {
        BodyCountsNothing(s.cipher, s.db, events[0].op);
      }
      hide Body, NothingCounted;
      RunCountsNothing(Handle(s, events[0]), events[1..]);
    }
  }

  lemma {:induction false} BodyCountsNothing(c: Cipher, db: Db, op: Op)
    requires NothingCounted(db) && Body(c, db, op).Ok?
    ensures NothingCounted(Body(c, db, op).value)
  {
  }

  /**
    Unlike the in-memory service, this one never counts a wrong code: the exception that reports it rolls the
    count back. In every run, the attempts stored are the wrong codes handed in exactly when there were none, and
    the limit of five holds exactly as long as fewer than five were handed in: the fifth does not fail anything.
   */
  lemma {:induction false} WrongCodesAreRolledBack(c: Cipher, events: seq<Event>, vid: string)
    requires vid in Run(Service(c, NoRows()), events).db.verifications
    ensures var v := Run(Service(c, NoRows()), events).db.verifications[vid];
            var wrong := WrongCodes(Service(c, NoRows()), events, vid);
            && v.attempts == 0 && !v.status.Failed? && !v.status.Expired?
            && (v.attempts == wrong <==> wrong == 0)
            && (AtMostFive(v, wrong) <==> wrong < 5)
  {
    RunCountsNothing(Service(c, NoRows()), events);
  }

  /** However often they are repeated, wrong codes leave the whole service as it was. */
  lemma {:induction false} WrongCodesChangeNothing(s: Service, guesses: seq<Event>, vid: string)
    requires forall i :: 0 <= i < |guesses| ==> IsWrongCode(s, guesses[i], vid)
    ensures Run(s, guesses) == s && WrongCodes(s, guesses, vid) == |guesses|
    decreases |guesses|
  {
    hide Body;
    if guesses == [] {
    } else {
      assert IsWrongCode(s, guesses[0], vid);
      assert Handle(s, guesses[0]) == s;
      WrongCodesChangeNothing(s, guesses[1..], vid);
    }
  }

  lemma {:induction false} RunKeepsSubmissions(s: Service, events: seq<Event>)
    requires SubmissionsReadable(s.cipher, s.db) && KeysOnlyGrow(s, events)
    ensures SubmissionsReadable(Run(s, events).cipher, Run(s, events).db)
    decreases |events|
  {
    hide Body, SubmissionsReadable;
    if events == [] {
    } else {
      var e := events[0];
      if e.Restart? {
        ExtendingKeepsSubmissions(s.cipher, e.cipher, s.db);
      } else if Commits(s, e) {
        BodyKeepsSubmissions(s.cipher, s.db, e.op);
      }
      RunKeepsSubmissions(Handle(s, e), events[1..]);
    }
  }

  /**
    In every run in which keys are only added, whatever wrong codes came before: a completion succeeds exactly when
    the verification is the user's, open, in time, met with its code, and free of conflicts; and then the new
    mailbox carries the name, e-mail and password submitted.
   */
  lemma {:induction false} CompletionMakesTheMailbox(
    c: Cipher, events: seq<Event>, id: int, user: int, vid: string, code: string, now: Instant)
    requires KeysOnlyGrow(Service(c, NoRows()), events)
    ensures var s := Run(Service(c, NoRows()), events);
            var done := Body(s.cipher, s.db, CompleteVerification(id, user, vid, code, now));
            && (done.Ok? <==>
                  && vid in s.db.verifications
                  && var v := s.db.verifications[vid];
                  && v.userId == user && v.status.Verifying? && now < v.expiresAt && A.ValidCode(code) && code == v.code
                  && A.ValidName(v.name) && v.provider == "gmail" && id !in s.db.mailboxes
                  && !EmailTaken(s.db, Some(user), v.email, {}) && !NameTaken(s.db, Some(user), v.name, {}))
            && (done.Ok? ==>
                  var v := s.db.verifications[vid];
                  && id in done.value.mailboxes
                  && var m := done.value.mailboxes[id];
                  && done.value.mailboxes == s.db.mailboxes[id := m]
                  && m.userId == Some(user) && m.name == v.name && m.email == v.email && m.authType.AppPassword?
                  && Credential(s.cipher, m) == Ok(v.password.ciphertext.plaintext)
                  && done.value.verifications[vid] == v.(mailboxId := Some(id), status := A.Verified))
  {
    RunKeepsSubmissions(Service(c, NoRows()), events);
    var s := Run(Service(c, NoRows()), events);
    if vid in s.db.verifications {
      var e := s.db.verifications[vid].password;
      assert Decrypt(s.cipher, e.ciphertext, e.keyVersion) == Ok(e.ciphertext.plaintext);
    }
  }

  lemma {:induction false} GuessesFirst(s: Service, guess: Event, n: nat, last: Event, vid: string)
    requires IsWrongCode(s, guess, vid) && !IsWrongCode(s, last, vid)
    ensures Run(s, seq(n, _ => guess) + [last]) == Handle(s, last)
    ensures WrongCodes(s, seq(n, _ => guess) + [last], vid) == n
  {
    hide Body;
    var events := seq(n, _ => guess) + [last];
    if n == 0 {
      assert events == [last] && events[1..] == [];
    } else {
      assert events[0] == guess && events[1..] == seq(n - 1, _ => guess) + [last];
      assert Handle(s, guess) == s;
      GuessesFirst(s, guess, n - 1, last, vid);
    }
  }

  /** Any number of wrong codes, five or five thousand, and then the right one: the mailbox is verified. */
  lemma {:induction false} GuessingIsNotStopped(c: Cipher, n: nat) returns (events: seq<Event>, vid: string)
    ensures WrongCodes(Service(c, NoRows()), events, vid) == n
    ensures var db := Run(Service(c, NoRows()), events).db;
            vid in db.verifications && db.verifications[vid].status.Verified? && db.verifications[vid].attempts == 0
  {
    vid := "v";
    var start := Txn(StartVerification(vid, 1, "work", "w@example.com", "gmail", "secret", "123456", 900.0), true);
    var guess := Txn(CompleteVerification(1, 1, vid, "000000", 0.0), true);
    var right := Txn(CompleteVerification(1, 1, vid, "123456", 0.0), true);
    var s := Handle(Service(c, NoRows()), start);
    assert A.ValidName("work") && A.ValidCode("123456");
    assert "000000"[0] != "123456"[0];
    assert IsWrongCode(s, guess, vid) && Body(c, s.db, right.op).Ok?;
    GuessesFirst(s, guess, n, right, vid);
    var rest := seq(n, _ => guess) + [right];
    events := [start] + rest;
    assert events[1..] == rest;
  }
}
